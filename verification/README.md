# A verified model of the Bosch XDK port of Wish

The port connects the Wish core, which is a separate library, to the XDK's socket layer
and operating system. This project models the stateful pieces whose behaviour is decided by
the port's own code and proves what they do in every run:

- **Address texts** (`CText`, `Bits`, `InetAton`, `AddressGrammar`, `DottedQuad`). The parsing
  loop of `inet_aton` accepts exactly the texts of a grammar over base-0 numerals, and its
  value is the weighted sum of the numbers. Printing a parsed address and parsing it again
  keeps the value whatever notation it came in, and the bytes of an address reach `s_addr`
  in order on machines of either byte order.
- **The core event ring** (`EventRing`). 40 slots, overwritten on overflow. For every run, overrun
  or not: which event each get returns, when the queue is first-in-first-out, what a drain
  yields, and how long the pointer returned by a get keeps its event.
- **The service IPC queue** (`IpcQueue`, `ServiceIpc`). A linked list of allocated nodes that own
  their payloads, with receivers that send while their own message is still linked. Over every run
  on the list itself: delivery exactly once, in order and as sent even when callers reuse their
  buffers, a bounded wait, and an account of every allocated block.
- **The main loop, connections and relays** (`Net`, `CoreActions`, `Sockets`, `Dispatch`,
  `Services`, `PortMain`). One invariant over contexts, `send_arg` blocks, relays and open sockets is
  followed through whole rounds and runs of rounds, with everything the core does in between. From
  it follow sound descriptor sets for every `select`, no use of a freed block, retries at the
  address of the open, bounded reads, one announcement per read, and books that grow by exactly
  the blocks and sockets the run lost (`Dispatch.Faithful`, `Dispatch.RunFaithful`). What each
  service does is told from readiness and the results of the socket layer, and every ready
  socket has its turn (`Services`).
- **The time gates** (`Gates`) and **`timeval_subtract`** (`Timeval`).

## How to read it

Code that changes state is a method over the same variables; its contract equates the new
state with a function of the old one, and the lemmas are about those functions: among them, for each
operation, what it does told from its arguments and the results of the layers below alone.

The Wish core appears as a sequence of `CoreActions.Action`s: it may call the operations of
the port and change its own fields in any order and number, subject to
`CoreActions.Allowed`. That predicate is the whole contract assumed of the core, of `malloc`
and of `socket()`. An action that breaks it does not happen, so a statement about all
scripts is a statement about all behaviours the contract permits. When the core is told
TCP_DISCONNECTED it frees the context; the two relay failure callbacks move the relay to
WAIT_RECONNECT and nothing else. Results of `select`, `recv`, `connect` and `accept` are
arbitrary, except that `select` returns a subset of what it was given, `recv` no more than
it was asked for, and `accept` a failure or a descriptor that was not open. An
`unsigned long`, a `long` and an `int` have 32 bits, as on the target.

The program can lose track of a descriptor in two ways: it registers a failed `accept`, and it
closes a number a second time that was handed out anew in between. A pass, a round or a run is
`sound` when neither happened. The invariants hold exactly in the sound ones; a run is
followed up to and including the first step that is not sound, and the causes are stated exactly
(`Dispatch.ServeConnSound`, `Dispatch.ServeServerFaithful`).

Where code and comments disagree, the code is followed: `timeval_subtract` is documented to
return 1 or 0 but returns the difference in seconds, and its microseconds can be exactly one
million.

## Properties that do not hold as one might expect

- A lone decimal does not always survive `inet_aton`: 4294967295 is refused because it is
  also `strtoul`'s overflow value (`DottedQuad.ParseOfDecimal`); as four bytes it is accepted.
- The event queue is first-in-first-out at a get exactly when at most 40 events wait
  (`EventRing.FifoUnlessOverrun`). When the holder of a returned pointer brings the
  count to exactly 40 with its own posts, its event is already replaced and no warning was printed
  (`EventRing.PointerStability`).
- After a failed `connect` the socket is closed twice. That is harmless exactly when no open by the
  core in between was given the number and kept it (`Sockets.SecondCloseExact`);
  `Sockets.SecondCloseHitsNewConnection` gives a run in which a new connection loses its socket.
- A failed `accept` is only printed. When a context was granted, the invariants survive exactly when
  the result is a descriptor after all (`Sockets.AcceptExact`).
- A relay whose `connect` does not report "in progress", an immediate success included, leaves
  its socket open for good, and so does a relay that is opened anew while it has one.
  `Sockets.RunAccounts` counts these and the `send_arg` blocks lost when `socket()` fails;
  `Dispatch.RunFaithful` carries the count over whole runs.
- Relays share one stored address. It is the one last dialed by a connecting relay exactly when that
  relay and the one opened last dialed the same address (`Sockets.RelaysShareOneAddress`).
- A relay's second `connect` sends 32 bits of address through `htons`, which takes 16. On a
  little-endian machine the address given can be the relay's own only if that one ends in two zero
  bytes, whatever the vendor's helper returns (`DottedQuad.RelayRetryExact`).
- The microseconds of `timeval_subtract` can be a full million (`Timeval.ResultUsecRange`).

## Model

| member | source | states |
|---|---|---|
| CText.StrtoulReadsNumeral | source/mist_port/inet_aton.c:52 | the call reads the text of a base-0 numeral, with sign, prefix and leading space, up to what cannot continue it, and yields its saturated value |
| CText.StrtoulReadsOnlyNumerals | source/mist_port/inet_aton.c:52-66 | whatever the call converts is such a numeral with that value |
| CText.DecimalIsNumeral | source/mist_port/port_net.c:112 | a printed decimal is never taken for octal or hexadecimal |
| Bits.Pack2 | source/mist_port/inet_aton.c:110 | shift and OR put two parts side by side |
| Bits.Pack3 | source/mist_port/inet_aton.c:116 | shift and OR put three parts side by side |
| Bits.Pack4 | source/mist_port/inet_aton.c:123 | shift and OR put four parts side by side |
| Bits.HtonlMemory | source/mist_port/inet_aton.c:128 | a word stored through htonl lies most significant byte first on either byte order |
| InetAton.GrabNumber | source/mist_port/inet_aton.c:50-94 | one round: the number, and whether a dot, the end or neither follows |
| InetAton.ReadParts | source/mist_port/inet_aton.c:49-96 | the loop stores exactly the numbers of the text, or fails when one is unusable or there are more than four |
| InetAton.Concoct | source/mist_port/inet_aton.c:99-125 | accepted exactly when every part fits its place; the value is the weighted sum |
| InetAton.InetAton | source/mist_port/inet_aton.c:32-131 | returns 1 exactly for accepted texts, then s_addr holds the value's bytes in network order; otherwise s_addr is untouched |
| AddressGrammar.AcceptsExactlyTheGrammar | source/mist_port/inet_aton.c:49-125 | a text has value v exactly when it is one to four numerals separated by dots, ended by NUL or space, none the overflow value, each in range, weighing v together |
| AddressGrammar.NumbersOfText | source/mist_port/inet_aton.c:49-96 | reading a well-formed text finds exactly its numbers, or fails when one is the overflow value |
| AddressGrammar.TextOfNumbers | source/mist_port/inet_aton.c:49-96 | whatever numbers are read, a well-formed text spells them |
| DottedQuad.ParseOfQuad | source/mist_port/port_net.c:111-114 | parsing a printed address gives it back, for every four bytes |
| DottedQuad.CanonicalForm | source/mist_port/inet_aton.c:32-131 | print after parse keeps the value of every accepted text and is idempotent |
| DottedQuad.AllOnesQuad | source/mist_port/port_net.c:290-291 | the broadcast address is accepted |
| DottedQuad.ParseOfDecimal | source/mist_port/inet_aton.c:54-55 | a lone decimal is read back, except 4294967295 |
| DottedQuad.QuadFits | source/mist_port/relay_client.c:71-74 | 7 to 15 characters, 15 exactly when all four numbers have three digits |
| DottedQuad.AddressToSockaddr | source/mist_port/relay_client.c:71-77 | print and parse leave the four bytes in that order in the memory of s_addr |
| DottedQuad.HostIpParsesBack | source/mist_port/port_net.c:323-339 | the host address text is complete exactly when it fits with its NUL, always with 16 bytes, and then parses back |
| DottedQuad.HostIpFallback | source/mist_port/port_net.c:336 | when the settings cannot be read the text is that of 127.0.0.1, complete exactly from ten bytes on, and parses to it |
| DottedQuad.ShorterBufferMisleads | source/mist_port/port_net.c:330 | with 15 bytes some address becomes the text of a different one |
| DottedQuad.OpenDiscovered | source/mist_port/port_net.c:261-275 | an address discovered and then opened reaches the socket with the same bytes in memory |
| DottedQuad.RelayRetryExact | source/mist_port/port_main.c:176 | exactly when the s_addr of a relay's second connect has the relay's bytes, for every value of the vendor's helper: two bytes are always zero |
| EventRing.EventQueue.Notify | source/mist_port/event.c:16-24 | the event goes to the write slot, overwriting; the warning is printed exactly when more than 40 wait |
| EventRing.EventQueue.GetNextEvent | source/mist_port/event.c:26-34 | NULL exactly when nothing waits, else the slot whose turn it is, holding the newest event posted into it |
| EventRing.NextGet | source/mist_port/event.c:16-34 | in every run the next get succeeds exactly when an event is untaken, and yields the newest event of the slot of the j-th |
| EventRing.FifoUnlessOverrun | source/mist_port/event.c:20-23 | that is the j-th event itself exactly when at most 40 wait |
| EventRing.SlotHolds | source/mist_port/event.c:17-18 | a slot keeps an event exactly until 40 later ones have been posted |
| EventRing.DrainYields | source/mist_port/event.c:26-34 | a drain of any ring, overrun or not: how many gets succeed and what each returns |
| EventRing.DrainAfterRun | source/mist_port/event.c:26-34 | gets succeed once per post over a run and a full drain; without overrun the drain returns the rest in order |
| EventRing.PointerStability | source/mist_port/event.c:29-31 | with m waiting after a get the slot keeps its event through 39 - m posts; post 40 - m replaces it with the count at 40, so without a warning |
| IpcQueue.RunExactlyOnce | source/mist_port/port_service_ipc.c:38-145 | for the abstract queue, over every interleaving of sends and tasks: dispatched messages followed by waiting ones equal the accepted ones in order; `ServiceIpc.Ipc.Drive` ties every run of the list to it |
| IpcQueue.BoundedWait | source/mist_port/port_service_ipc.c:38-78 | t task calls dispatch exactly the first t of the messages waiting before, whatever is sent meanwhile |
| IpcQueue.DispatchedInTurn | source/mist_port/port_main.c:395 | a message with k ahead goes out in exactly the (k+1)-th later task call |
| ServiceIpc.Ipc.NewEvent | source/mist_port/port_service_ipc.c:91-105 | a filled node with its own copy of the payload, or none; a node whose payload is refused stays allocated and unlinked |
| ServiceIpc.Ipc.Fill | source/mist_port/port_service_ipc.c:102-105 | type, app, length and a copy of the payload as at send time |
| ServiceIpc.Ipc.Append | source/mist_port/port_service_ipc.c:106 | the node becomes the last of the chain |
| ServiceIpc.RunDelivers | source/mist_port/port_service_ipc.c:38-145 | what a run dispatches and leaves waiting is told from the requests alone: earlier messages and accepted ones, each once and in order |
| ServiceIpc.Ipc.Before | source/mist_port/port_service_ipc.c:63 | the walk stops at the element just before the one to delete |
| ServiceIpc.Ipc.Delete | source/mist_port/port_service_ipc.c:63 | the chain goes on without the node |
| ServiceIpc.Ipc.UnlinkHead | source/mist_port/port_service_ipc.c:63-65 | the chain starts at the second node and the two blocks of the first are gone |
| ServiceIpc.Ipc.Count | source/mist_port/port_service_ipc.c:67-69 | the length of the list |
| ServiceIpc.Ipc.Send | source/mist_port/port_service_ipc.c:84-145 | the message of an accepted send is appended; the nodes and buffers of the queue are the old ones and fresh ones, so the caller may reuse its own buffer; shape, exactly-once and the account of blocks are kept |
| ServiceIpc.Ipc.Receive | source/mist_port/port_service_ipc.c:111-124 | a receiver may send any number of messages while its own is still linked |
| ServiceIpc.Ipc.Deliver | source/mist_port/port_service_ipc.c:48-61 | a message to the core reaches the core with the sender's wsid, one to an app reaches that app, with the bytes as sent |
| ServiceIpc.DeliveredAsRequested | source/mist_port/port_service_ipc.c:48-61 | told from the request: app to core is received by the core under the requested wsid, core to app by the registered app of that wsid, with the requested payload |
| ServiceIpc.OneRequestSent | source/mist_port/port_service_ipc.c:84-145 | what one request of a run adds: the message asked for when both blocks are allocated, nothing otherwise; receivers send only when a message waits |
| ServiceIpc.AcceptedOfThen | source/mist_port/port_service_ipc.c:111-124 | the sends of a receiver are queued one after the other |
| ServiceIpc.SentThen | source/mist_port/port_service_ipc.c:38-145 | so are those of a run: a run in two parts sends the messages of the first and then of the second |
| ServiceIpc.Ipc.Release | source/mist_port/port_service_ipc.c:64-65 | both blocks are live before and freed once |
| ServiceIpc.Ipc.Discard | source/mist_port/port_service_ipc.c:63-65 | the head leaves the list and both its blocks are freed |
| ServiceIpc.Ipc.PortServiceIpcTask | source/mist_port/port_service_ipc.c:38-78 | the oldest message is delivered to the receiver its direction names, the receiver's sends are queued behind, then it is retired; an empty queue is left alone; all nodes and buffers are old ones or fresh ones |
| ServiceIpc.Ipc.Perform | source/mist_port/port_service_ipc.c:84-145 | a send whose caller then overwrites its buffer, or a task call: the abstract step, the delivery to the right receiver and the account of half-allocated sends |
| ServiceIpc.Ipc.Drive | source/mist_port/port_service_ipc.c:38-145 | any run on the list: the k-th delivery goes to the receiver named by the k-th of the messages waiting before and those accepted, as sent; the rest waits; live blocks are two per node plus those abandoned |
| Net.AttachOk | source/mist_port/port_net.c:94-119 | a new socket and send_arg for a context keep the invariants |
| Net.DropOk | source/mist_port/port_net.c:71-79 | closing, freeing and the signal keep the invariants: no block is freed that is not live |
| Net.LeakOk | source/mist_port/port_net.c:98-102 | a failed socket() loses the block and nothing else |
| CoreActions.OpenedOk | source/mist_port/port_net.c:86-133 | every outcome of wish_open_connection keeps the invariants |
| CoreActions.OpenConnectionDoes | source/mist_port/port_net.c:86-133 | for every permitted call: with a socket, the context has a send_arg holding that socket and exactly the address and port given, and is connecting when connect is in progress; without one, the block is lost and nothing else changes |
| CoreActions.RelayOpenedOk | source/mist_port/relay_client.c:55-112 | every outcome of a relay open keeps the invariants, also when the relay still has a socket |
| CoreActions.RelayOpenEnds | source/mist_port/relay_client.c:55-112 | for every relay, exactly which outcome ends in RESOLVING, CONNECTING (with the new socket, a send function and the given address kept for the retry) or WAIT_RECONNECT; no socket is closed and nothing else changes |
| CoreActions.ClosesDo | source/mist_port/port_net.c:135-148 | closing a connection, or a relay, gives back exactly its own block and socket |
| CoreActions.RunOk | source/mist_port/port_main.c:84-398 | the invariants hold over every run of the core, whatever it does in the contract |
| Sockets.SelectSetsOk | source/mist_port/port_main.c:89-148 | the read and write sets are disjoint, of open descriptors, and no accepted connection is waited on for writing |
| Sockets.SelectedForOwner | source/mist_port/port_main.c:89-148 | a descriptor is in the read set, or in the write set, exactly when it has an owner that waits to read, or to connect; sockets without an owner are in neither |
| Sockets.RetryAddress | source/mist_port/port_main.c:281-282 | a connection ready for writing is retried at the address it was opened with |
| Sockets.ConnectingToLastOpen | source/mist_port/port_net.c:111-115 | after every run of the core a connecting context holds the address of the last open of it that got a socket |
| Sockets.RetargetIsLastOpen | source/mist_port/port_net.c:111-115 | last means that no later open in the run is of that context |
| Sockets.RunKeepsNoAccepted | source/mist_port/port_main.c:231-311 | callbacks of the core in the middle of a pass cannot change that, even when numbers are reused |
| Sockets.ConnectingRelay | source/mist_port/port_main.c:105-111 | a connecting relay has its own open socket and a send function; a lone one also the address last dialed |
| Sockets.RelaysShareOneAddress | source/mist_port/relay_client.c:49-84 | in every state the invariants admit, the address kept for retries is a connecting relay's own exactly when the relay opened last dialed the same one |
| Sockets.HeapCount | source/mist_port/port_net.c:86-148 | live send_args are those of the contexts in use plus the lost ones |
| Sockets.RunAccounts | source/mist_port/relay_client.c:79-89 | over every run of the core one block is lost per failed socket() in an open, one socket per relay connect not in progress and one per relay opened while it has a socket; nothing else, and nothing lost is found again |
| Sockets.OpenAfterScript | source/mist_port/port_main.c:306-307 | a number not open before a run of the core is open after it exactly when the core was given it and kept it |
| Sockets.SecondCloseExact | source/mist_port/port_main.c:306-307 | at the branch of the failed connect, for every reaction of the core: the second close keeps the invariants exactly when no socket the core opened meanwhile got the number and kept it |
| Sockets.SecondCloseHitsNewConnection | source/mist_port/port_net.c:71-79 | a run in which it takes the socket of a new connection |
| Sockets.AcceptExact | source/mist_port/port_main.c:318-340 | registering what accept returned keeps the invariants exactly when it is not negative; in either case it is selected on next |
| Dispatch.ServeConnFaithful | source/mist_port/port_main.c:231-311 | serving a context, for every reaction of the core: invariants kept exactly when sound, exact books, one announcement per read, proper calls of recv and connect, addresses those of the last opens |
| Dispatch.ServeConnFeedsOnce | source/mist_port/port_main.c:262-267 | bytes received are fed once before the core reacts and announced once after it; without a read nothing is announced; and exactly when a read succeeds |
| Dispatch.BeforeCoreTouchesOnlyIts | source/mist_port/port_main.c:231-311 | up to the point where the core is told, serving touches only its context: a read adds exactly its bytes, an ended connection gives back exactly its block and its socket |
| Dispatch.ServeConnSound | source/mist_port/port_main.c:301-308 | serving a context loses track of a descriptor exactly when its connect failed and the core was given the number again and kept it |
| Dispatch.BufferHasRoom | source/mist_port/port_main.c:243-258 | a recv asks for at most 512 bytes and never for more than the 1500-byte buffer has left |
| Dispatch.ServeRelayFaithful | source/mist_port/port_main.c:167-225 | serving a relay is always sound, keeps the invariants and loses nothing but what the core loses |
| Dispatch.ServeServerFaithful | source/mist_port/port_main.c:315-343 | serving the server socket is unsound exactly when a context is granted to a failed accept |
| Dispatch.ServeAllFaithful | source/mist_port/port_main.c:157-347 | the same four facts of a whole pass, which makes at most four calls of recv or connect and announces at most four reads |
| Dispatch.RoundFaithful | source/mist_port/port_main.c:84-398 | the same of a whole round with its drain, periodic work and IPC task |
| Dispatch.RunFaithful | source/mist_port/port_main.c:84-398 | and of every run of rounds: invariants exactly while sound, books that grew by exactly what the run lost, announcements in the order of the reads, proper calls |
| Dispatch.DrainIsFifo | source/mist_port/port_main.c:374-385 | without overrun a drain handles every event, its handlers' included, once and in order |
| Services.RetriedByResult | source/mist_port/port_main.c:276-309 | a socket ready for writing: connect is repeated once, at the stored address; at least 0 is reported to a core that waits for it; a negative result frees the context, its block and its socket before the core reacts, and closes the number again after |
| Services.ReadByResult | source/mist_port/port_main.c:240-275 | a socket ready for reading: the length asked for; bytes are fed and announced, 0 frees the context, its block and its socket before the core reacts, a failure or a full buffer changes nothing |
| Services.NotReadyNotServed | source/mist_port/port_main.c:231-239 | a context that is not in use or not ready is left alone |
| Services.RelayByResult | source/mist_port/port_main.c:167-225 | a relay by readiness and result: success and bytes are told to the core, an attempt in progress or a failed read changes nothing, a failed connect or an end closes exactly its socket and waits to reconnect; not ready, nothing happens |
| Services.DiscoveryByResult | source/mist_port/port_main.c:159-162 | discovery is read exactly when its socket is ready |
| Services.AcceptedByResult | source/mist_port/port_main.c:315-343 | with a context granted, what accept returned is registered with it and nothing else changes, then the core is told unless accept failed; without a context or request nothing changes |
| Services.PassInOrder | source/mist_port/port_main.c:157-347 | a pass is discovery, each relay, each context and the server socket, one after the other, until a descriptor is lost track of |
| Services.EveryTurnComes | source/mist_port/port_main.c:157-347 | each of them has its turn in a sound pass, in a state that keeps the invariants |
| Services.ReadyIsServed | source/mist_port/port_main.c:153-347 | after a positive select every ready descriptor that anyone waits on is looked at in its owner's turn, and a context still in use makes a call of recv or connect |
| Services.NoPassWithoutReady | source/mist_port/port_main.c:346-355 | after a timeout or a failure of select nothing is served |
| Services.RestIsOneRun | source/mist_port/port_main.c:374-395 | the rest of a round is one run of the core: handlers in order, the once-a-second work if the gate fires, the IPC task |
| Services.RoundInOrder | source/mist_port/port_main.c:84-398 | a sound round is the pass followed by that run |
| Services.RunConnectsToLastOpen | source/mist_port/port_net.c:111-115 | over every run of rounds a connecting context holds the address of the last open of it |
| PortMain.Port.constructor | source/mist_port/port_main.c:63-83 | the state at the start of the loop satisfies the invariants |
| PortMain.Port.SinAddrOf | source/mist_port/port_net.c:111-114 | printing and parsing leave sin_addr with the bytes of the address |
| PortMain.Port.WishOpenConnection | source/mist_port/port_net.c:86-133 | allocation, socket, registration, address and connect in place; connect is given exactly the address and port of the call |
| PortMain.Port.WishCloseConnection | source/mist_port/port_net.c:135-148 | close, free and the signal in place |
| PortMain.Port.FreeSendArg | source/mist_port/port_net.c:76 | a send_arg is freed only while it is live |
| PortMain.Port.Disconnect | source/mist_port/port_net.c:71-79 | the same without the closing state |
| PortMain.Port.PortRelayClientOpen | source/mist_port/relay_client.c:55-91 | the relay states, the stored address and the socket of each outcome; connect is given the relay's four bytes |
| PortMain.Port.WishRelayClientOpen | source/mist_port/relay_client.c:93-112 | numeric hosts are opened, others resolved |
| PortMain.Port.RelayGone | source/mist_port/relay_client.c:151-154 | the relay gives up its socket |
| PortMain.Port.UpdateMaxFd | source/mist_port/port_main.c:45-49 | the bound covers the descriptor, never shrinks, and grows no further than needed |
| PortMain.Port.BuildSets | source/mist_port/port_main.c:89-148 | the sets equal their definitions over fixed sockets, relays and pool; every member is at least 0 and below max_fd |
| PortMain.Port.ServeConnection | source/mist_port/port_main.c:231-311 | one context in place: read, feed and announce, disconnect, retry or failure, as `Services.ReadByResult`, `Services.RetriedByResult` and `Services.NotReadyNotServed` tell; the length asked for and the address retried are those of the calls |
| PortMain.Port.ReadReady | source/mist_port/port_main.c:240-275 | the half for a readable socket |
| PortMain.Port.WriteReady | source/mist_port/port_main.c:276-309 | the half for a writable socket, with the second close; `Services.RetriedByResult` says what each result leads to |
| PortMain.Port.ServeRelayClient | source/mist_port/port_main.c:167-225 | one relay: retry, read, failure, as `Services.RelayByResult` tells; a retry happens exactly for a connecting relay ready for writing and starts from the stored address, its own exactly when the last opener dialed the same |
| PortMain.Port.AcceptConnection | source/mist_port/port_main.c:315-343 | a new connection is registered, or closed when no context is free, as `Services.AcceptedByResult` tells; a failed accept that is registered ends soundness |
| PortMain.Port.Refuse | source/mist_port/port_main.c:329-333 | a connection without a context leaves the table of descriptors as it was |
| PortMain.Port.Register | source/mist_port/port_main.c:318-340 | the context gets a send_arg with whatever accept returned |
| PortMain.Port.ServeRelayClients | source/mist_port/port_main.c:164-228 | all relays in order |
| PortMain.Port.ServeConnections | source/mist_port/port_main.c:231-311 | the pool in order, with all calls of recv and connect of the pass, up to a lost descriptor |
| PortMain.Port.Discover | source/mist_port/port_main.c:159-162 | discovery is read when its socket is ready |
| PortMain.Port.Serve | source/mist_port/port_main.c:157-347 | the whole pass in order |
| PortMain.Port.ServeReady | source/mist_port/port_main.c:153-347 | the pass happens only when select found something, over what it found |
| PortMain.Port.ProcessEvent | source/mist_port/port_main.c:377-379 | the core handles the event its pointer shows |
| PortMain.Port.DrainEvents | source/mist_port/port_main.c:374-385 | the loop ends with an empty ring, each event read in its turn |
| PortMain.Port.RestOfRound | source/mist_port/port_main.c:357-395 | gates, drain, periodic work and IPC task, in this order |
| PortMain.Port.OneRound | source/mist_port/port_main.c:84-398 | a whole round in place: the select call, the new state, the events handled and posted, the gates, and `Dispatch.Faithful`: exact books, at most four reads announced |
| PortMain.Port.MainLoop | source/mist_port/port_main.c:84-398 | over any number of rounds every select gets disjoint sets within a bound that never shrinks; state, events and books are those of the run as a whole, and `Dispatch.Faithful` holds of it |
| Gates.PeriodicStampIsMaximum | source/mist_port/port_main.c:387-390 | the periodic stamp is the largest second seen |
| Gates.FiresOnNewMaximum | source/mist_port/port_main.c:388-394 | the one-second work is done exactly in the rounds with a new largest second |
| Gates.FiringsAtMostSeconds | source/mist_port/port_main.c:388-394 | and no more often than seconds have passed |
| Gates.ReportsAreApart | source/mist_port/port_main.c:357-364 | two reports are at least eleven seconds apart |
| Gates.ReportIsRecent | source/mist_port/port_main.c:359-360 | after any round the last report is less than eleven seconds old |
| Gates.ReportsWhenDue | source/mist_port/port_main.c:357-364 | a report is made exactly in the rounds at least eleven seconds past the start and past every earlier report |
| Gates.Clock.Report | source/mist_port/port_main.c:357-372 | the ten-second gate in place |
| Gates.Clock.Periodic | source/mist_port/port_main.c:387-394 | the one-second gate in place |
| Timeval.TimevalSubtract | source/mist_port/time_helper.c:13-34 | exact difference for every aliasing whenever no step overflows; microseconds from 0 to one million, below for normalised inputs with the floor in seconds; the changed subtrahend is the same instant |
| Timeval.Carries | source/mist_port/time_helper.c:15-24 | the two ifs move whole seconds between the fields of the subtrahend |
| Timeval.NormalisedFits | source/mist_port/time_helper.c:15-30 | for normalised times no step overflows exactly when the difference in seconds, less a borrow, fits |
| Timeval.ResultUsecRange | source/mist_port/time_helper.c:15-24 | exactly when the microseconds are one million |

## Left out

- The Wish core, mist, BSON, SPIFFS and mbedtls: not part of the repository; the core is the contract in `CoreActions.Allowed`.
- Flash, platform registration, WLAN bring-up, LED, configuration app and sensors: sequences of vendor calls.
- Timeval.TimevalSubtract: for inputs on which no step leaves 32 bits (`NoOverflow`, step by step); on all others the C code has no defined result. The returned double is modelled as a real.
- EventRing.EventQueue.Notify: the counters are unbounded; the C counter overflows after 2^31 posts that nobody takes.
- ServiceIpc.Ipc.Send: the wsid names a registered app; for another the source queues a null app and later reads through it. The two send functions differ in the event type only and are one method with that parameter.
- ServiceIpc.Ipc.Receive: the receiver does not write to the payload it is given and does not call `port_service_ipc_task`.
- PortMain.Port.WishOpenConnection: malloc succeeds; the source prints a message when it fails and then writes through the null pointer. The same goes for accepted connections.
- Which of the two connected signals is sent, directly or via a relay: the core's reaction is arbitrary either way.
- PortMain.Port.constructor: the three sockets of the setup were all made.
- PortMain.Port.RelayGone: one method for both orders of closing the socket and telling the core.
- PortMain.Port.ServeRelayClient: the address the retry starts from, not the value of the vendor's helper; `DottedQuad.RelayRetryExact` is about every value.
- PortMain.Port.MainLoop: a run is not followed beyond the step that loses track of a descriptor; what that step leaves is still stated.
- CoreActions.RunOk: the list of relays has a fixed length; the core adds and removes none.
- PortMain.Port.OneRound: the IPC task is a call of the core there; its queue is modelled in `ServiceIpc`.
- What a handler does to the ring through a pointer it kept from an earlier event: only how long that pointer is good is modelled.
- Tick-counter wrap-around, task yields, printing, the sending of data and of advertisements, and the empty DNS functions.
