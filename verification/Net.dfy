/**
 * Connections, relay clients and their sockets: the state that port_main.c, port_net.c
 * and relay_client.c share with the wish core and the socket layer, as a value.
 *
 * The core itself is not part of the repository. All that is assumed of it stands in
 * `Allowed`: it acts through the operations below, in any order and number, and every
 * result of the socket layer and of malloc is one that those could have returned.
 */
module Net {
  import opened Bits
  import opened CText

  const POOL_SIZE: nat := 4
  const RX_SIZE: nat := 1500

  type Ip = b: seq<byte> | |b| == 4 witness [0, 0, 0, 0]

  /** sockaddr_in of a connection; Unset is what malloc left there. */
  datatype Remote = Unset | Remote(ip: Ip, port: nat)

  /** struct xdk_send_arg */
  datatype SendArg = SendArg(sockFd: int, remote: Remote)

  datatype ContextState = Free | InUse | Closing

  datatype Transport = Connecting | OtherTransport

  /** wish_connection_t; `sendArg` is the address of a heap block, and stays stale when the context is freed. */
  datatype Context = Context(state: ContextState, transport: Transport, sendArg: Option<nat>, viaRelay: bool, rxUsed: nat)

  datatype RelayState = Initial | Opening | RelayConnecting | Resolving | WaitReconnect | Active

  /** wish_relay_client_t */
  datatype Relay = Relay(state: RelayState, sockFd: int, sendInstalled: bool) {
    /** The states in which the relay's descriptor is in use. */
    predicate HasSocket() {
      state == RelayConnecting || state == Active
    }
  }

  datatype ConnectResult = Zero | Positive | Already | Failed

  /** Who uses an open socket. */
  datatype Owner = Server | Discovery | Broadcast | Conn(i: nat) | RelayOf(j: nat)

  /** The three sockets opened once, before the main loop. */
  datatype Fixed = Fixed(server: int, discovery: int, broadcast: int)

  /**
   * pool, heap, relays and relayIp are the program's; openFds is the socket layer's table.
   * The rest is bookkeeping for the proofs: who owns which open socket, the open sockets
   * nobody owns, the heap blocks nobody owns, the address each context was last opened
   * with, the address each relay was last opened with, and the relay opened last.
   */
  datatype State = State(
    pool: seq<Context>, heap: map<nat, SendArg>, relays: seq<Relay>, relayIp: Ip, openFds: set<int>,
    fixed: Fixed, owners: map<int, Owner>, stray: set<int>, leaked: set<nat>,
    targets: seq<Remote>, dialed: seq<Ip>, lastOpener: Option<nat>)
  {
    /** A context in use that has a send_arg: the ones the main loop serves. */
    predicate Live(i: nat) {
      i < |pool| && pool[i].state != Free && pool[i].sendArg.Some?
    }

    predicate ArgOk(i: nat) {
      Live(i) ==> pool[i].sendArg.value in heap
    }

    function FdOf(i: nat): int
      requires Live(i) && ArgOk(i)
    {
      heap[pool[i].sendArg.value].sockFd
    }

    // ----- Invariants

    /** No dangling and no shared send_arg, and every block is somebody's or known to be lost. */
    ghost predicate MemoryOk() {
      && |pool| == POOL_SIZE
      && (forall i | 0 <= i < |pool| :: ArgOk(i) && (Live(i) ==> pool[i].sendArg.value !in leaked))
      && (forall i, j | 0 <= i < j < |pool| && Live(i) && Live(j) :: pool[i].sendArg != pool[j].sendArg)
      && leaked <= heap.Keys
      && (forall a | a in heap && a !in leaked :: exists i :: 0 <= i < |pool| && Live(i) && pool[i].sendArg.value == a)
    }

    /** `fd` is what its recorded owner uses. */
    predicate OwnerOk(fd: int)
      requires fd in owners
    {
      fd >= 0 &&
      match owners[fd]
      case Server => fd == fixed.server
      case Discovery => fd == fixed.discovery
      case Broadcast => fd == fixed.broadcast
      case Conn(i) => Live(i) && ArgOk(i) && FdOf(i) == fd
      case RelayOf(j) => j < |relays| && relays[j].HasSocket() && relays[j].sockFd == fd
    }

    /** Every socket in use is open and has one owner; every other open socket is known to be lost. */
    ghost predicate SocketsOk()
      requires MemoryOk()
    {
      && (forall fd | fd in owners :: OwnerOk(fd))
      && fixed.server in owners && owners[fixed.server] == Server
      && fixed.discovery in owners && owners[fixed.discovery] == Discovery
      && (forall i | 0 <= i < |pool| && Live(i) :: FdOf(i) in owners && owners[FdOf(i)] == Conn(i))
      && (forall j | 0 <= j < |relays| && relays[j].HasSocket() ::
            relays[j].sockFd in owners && owners[relays[j].sockFd] == RelayOf(j))
      && owners.Keys !! stray
      && openFds == owners.Keys + stray
    }

    /** A connecting context has a send_arg holding the address it was opened with; an accepted one is not connecting. */
    ghost predicate TargetsOk()
      requires MemoryOk()
    {
      && |targets| == |pool|
      && (forall i | 0 <= i < |pool| && Live(i) ::
            var r := heap[pool[i].sendArg.value].remote; r == Unset || r == targets[i])
      && (forall i | 0 <= i < |pool| && pool[i].state != Free && pool[i].transport == Connecting ::
            Live(i) && heap[pool[i].sendArg.value].remote != Unset)
    }

    /** The core never holds more received bytes than its buffer takes. */
    ghost predicate BuffersOk() {
      forall i | 0 <= i < |pool| :: pool[i].rxUsed <= RX_SIZE
    }

    /** A connecting relay can send, and the shared address is that of the relay opened last. */
    ghost predicate RelaysOk() {
      && |dialed| == |relays|
      && (forall j | 0 <= j < |relays| ::
            relays[j].state != Opening
            && (relays[j].state == RelayConnecting ==> relays[j].sendInstalled && lastOpener.Some?))
      && (lastOpener.Some? ==> lastOpener.value < |relays| && relayIp == dialed[lastOpener.value])
    }

    ghost predicate Ok() {
      MemoryOk() && SocketsOk() && TargetsOk() && BuffersOk() && RelaysOk()
    }

    // ----- Elementary changes

    /** A context that is not served before or after the change, or is served with the same send_arg. */
    function SetContext(i: nat, c: Context): State
      requires i < |pool|
    {
      this.(pool := pool[i := c])
    }

    /** socket() or accept() gave `arg.sockFd` to context i. */
    function Attach(i: nat, addr: nat, arg: SendArg, transport: Transport): State
      requires i < |pool|
    {
      this.(pool := pool[i := pool[i].(sendArg := Some(addr), transport := transport)],
            heap := heap[addr := arg],
            openFds := openFds + {arg.sockFd},
            owners := owners[arg.sockFd := Conn(i)],
            targets := if arg.remote == Unset || i >= |targets| then targets else targets[i := arg.remote])
    }

    /** A send_arg without a socket: nothing points to it. */
    function Leak(addr: nat, arg: SendArg): State {
      this.(heap := heap[addr := arg], leaked := leaked + {addr})
    }

    /** close(fd); free(send_arg); TCP_DISCONNECTED frees the context. */
    function Drop(i: nat): State
      requires Live(i) && ArgOk(i)
    {
      this.(pool := pool[i := pool[i].(state := Free)],
            heap := heap - {pool[i].sendArg.value},
            openFds := openFds - {FdOf(i)},
            owners := owners - {FdOf(i)})
    }

    function SetRelay(j: nat, r: Relay): State
      requires j < |relays|
    {
      this.(relays := relays[j := r])
    }

    function AttachRelay(j: nat, ip: Ip, fd: int): State
      requires j < |relays|
    {
      this.(relays := relays[j := Relay(RelayConnecting, fd, true)],
            relayIp := ip, dialed := if j < |dialed| then dialed[j := ip] else dialed, lastOpener := Some(j),
            openFds := openFds + {fd}, owners := owners[fd := RelayOf(j)])
    }

    /** The socket stays open although the relay gave it up. */
    function StrayRelay(j: nat, fd: int): State
      requires j < |relays|
    {
      this.(relays := relays[j := relays[j].(state := WaitReconnect, sockFd := fd)],
            openFds := openFds + {fd}, stray := stray + {fd})
    }

    /** A relay opened anew while it has a socket forgets that one, which stays open. */
    function Abandon(j: nat): State
      requires j < |relays|
    {
      if !relays[j].HasSocket() then this
      else
        this.(relays := relays[j := relays[j].(state := Initial)],
              owners := owners - {relays[j].sockFd}, stray := stray + {relays[j].sockFd})
    }

    function DropRelay(j: nat): State
      requires j < |relays|
    {
      this.(relays := relays[j := relays[j].(state := WaitReconnect)],
            openFds := openFds - {relays[j].sockFd}, owners := owners - {relays[j].sockFd})
    }
  }

  // ----- What the program sees of a change

  /** Context i is free, its block given back and its socket closed; nothing else changed. */
  predicate Ended(n: State, m: State, i: nat)
    requires n.Live(i) && n.ArgOk(i)
  {
    && m.pool == n.pool[i := n.pool[i].(state := Free)]
    && m.heap == n.heap - {n.pool[i].sendArg.value}
    && m.openFds == n.openFds - {n.heap[n.pool[i].sendArg.value].sockFd}
    && m.relays == n.relays && m.relayIp == n.relayIp
  }

  /** Relay j waits to be connected again, and its socket is closed; nothing else changed. */
  predicate RelayEnded(n: State, m: State, j: nat)
    requires j < |n.relays|
  {
    && m.relays == n.relays[j := n.relays[j].(state := WaitReconnect)]
    && m.openFds == n.openFds - {n.relays[j].sockFd}
    && m.pool == n.pool && m.heap == n.heap && m.relayIp == n.relayIp
  }

  /** Context i has the block `addr` with this socket and remote address; nothing else changed. */
  predicate Registered(n: State, m: State, i: nat, c: Context, addr: nat, sock: int, remote: Remote)
    requires i < |n.pool|
  {
    && m.pool == n.pool[i := c.(sendArg := Some(addr))]
    && m.heap == n.heap[addr := SendArg(sock, remote)]
    && m.openFds == n.openFds + {sock}
    && m.relays == n.relays && m.relayIp == n.relayIp
  }

  // ----- Each elementary change keeps the invariants

  /** Which contexts are served, and with which send_arg, is the same in both states. */
  ghost predicate SameService(n: State, m: State) {
    && |m.pool| == |n.pool|
    && m.leaked == n.leaked && m.heap == n.heap
    && forall k | 0 <= k < |n.pool| ::
         (m.Live(k) <==> n.Live(k)) && (n.Live(k) ==> m.pool[k].sendArg == n.pool[k].sendArg)
  }

  lemma {:induction false} SameServiceMemory(n: State, m: State)
    requires n.MemoryOk() && SameService(n, m)
    ensures m.MemoryOk()
  {
    forall a | a in m.heap && a !in m.leaked
      ensures exists k :: 0 <= k < |m.pool| && m.Live(k) && m.pool[k].sendArg.value == a
    {
      var k :| 0 <= k < |n.pool| && n.Live(k) && n.pool[k].sendArg.value == a;
      assert m.Live(k);
    }
  }

  lemma {:induction false} SameServiceSockets(n: State, m: State)
    requires n.MemoryOk() && n.SocketsOk() && SameService(n, m) && m.MemoryOk()
    requires m.relays == n.relays && m.fixed == n.fixed
    requires m.owners == n.owners && m.stray == n.stray && m.openFds == n.openFds
    ensures m.SocketsOk()
  {
  }

  lemma {:induction false} SetContextOk(n: State, i: nat, c: Context)
    requires n.Ok() && i < |n.pool|
    requires c.rxUsed <= RX_SIZE
    requires if n.Live(i) then c.state != Free && c.sendArg == n.pool[i].sendArg else c.state == Free || c.sendArg == None
    requires c.state != Free && c.transport == Connecting ==> n.Live(i) && n.pool[i].transport == Connecting
    ensures n.SetContext(i, c).Ok()
  {
    hide State.MemoryOk, State.SocketsOk;
    var m := n.SetContext(i, c);
    SameServiceMemory(n, m);
    SameServiceSockets(n, m);
  }

  lemma {:induction false} AttachMemory(n: State, i: nat, addr: nat, arg: SendArg, transport: Transport)
    requires n.MemoryOk() && i < |n.pool| && n.pool[i].state != Free && n.pool[i].sendArg == None
    requires addr !in n.heap
    ensures n.Attach(i, addr, arg, transport).MemoryOk()
  {
    var m := n.Attach(i, addr, arg, transport);
    assert forall k | 0 <= k < |n.pool| :: m.Live(k) <==> n.Live(k) || k == i;
    forall a | a in m.heap && a !in m.leaked
      ensures exists k :: 0 <= k < |m.pool| && m.Live(k) && m.pool[k].sendArg.value == a
    {
      if a == addr {
        assert m.Live(i);
      } else {
        var k :| 0 <= k < |n.pool| && n.Live(k) && n.pool[k].sendArg.value == a;
        assert m.Live(k);
      }
    }
  }

  lemma {:induction false} AttachService(n: State, i: nat, addr: nat, arg: SendArg, transport: Transport)
    requires n.MemoryOk() && i < |n.pool| && n.pool[i].state != Free && n.pool[i].sendArg == None
    requires addr !in n.heap && n.Attach(i, addr, arg, transport).MemoryOk()
    ensures var m := n.Attach(i, addr, arg, transport);
            |m.pool| == |n.pool| && m.Live(i) && m.ArgOk(i) && m.FdOf(i) == arg.sockFd
            && forall k | 0 <= k < |n.pool| ::
                 n.ArgOk(k) && m.ArgOk(k) && (m.Live(k) <==> n.Live(k) || k == i)
                 && (n.Live(k) ==> m.pool[k] == n.pool[k] && m.FdOf(k) == n.FdOf(k))
  {
  }

  lemma {:induction false} AttachSockets(n: State, i: nat, addr: nat, arg: SendArg, transport: Transport)
    requires n.MemoryOk() && n.SocketsOk()
    requires i < |n.pool| && n.pool[i].state != Free && n.pool[i].sendArg == None
    requires addr !in n.heap && arg.sockFd >= 0 && arg.sockFd !in n.openFds
    requires n.Attach(i, addr, arg, transport).MemoryOk()
    ensures n.Attach(i, addr, arg, transport).SocketsOk()
  {
    hide State.MemoryOk;
    AttachService(n, i, addr, arg, transport);
  }

  lemma {:induction false} AttachTargets(n: State, i: nat, addr: nat, arg: SendArg, transport: Transport)
    requires n.MemoryOk() && n.TargetsOk() && n.BuffersOk()
    requires i < |n.pool| && n.pool[i].state != Free && n.pool[i].sendArg == None
    requires addr !in n.heap
    requires transport == Connecting ==> arg.remote != Unset
    requires n.Attach(i, addr, arg, transport).MemoryOk()
    ensures n.Attach(i, addr, arg, transport).TargetsOk() && n.Attach(i, addr, arg, transport).BuffersOk()
  {
    hide State.MemoryOk;
    AttachService(n, i, addr, arg, transport);
  }

  lemma {:induction false} AttachOk(n: State, i: nat, addr: nat, arg: SendArg, transport: Transport)
    requires n.Ok() && i < |n.pool| && n.pool[i].state != Free && n.pool[i].sendArg == None
    requires addr !in n.heap && arg.sockFd >= 0 && arg.sockFd !in n.openFds
    requires transport == Connecting ==> arg.remote != Unset
    ensures n.Attach(i, addr, arg, transport).Ok()
  {
    hide State.MemoryOk, State.SocketsOk, State.TargetsOk, State.BuffersOk;
    AttachMemory(n, i, addr, arg, transport);
    AttachSockets(n, i, addr, arg, transport);
    AttachTargets(n, i, addr, arg, transport);
  }

  lemma {:induction false} LeakOk(n: State, addr: nat, arg: SendArg)
    requires n.Ok() && addr !in n.heap
    ensures n.Leak(addr, arg).Ok()
  {
    hide State.SocketsOk;
    var m := n.Leak(addr, arg);
    assert forall k | 0 <= k < |n.pool| :: m.Live(k) <==> n.Live(k);
    forall a | a in m.heap && a !in m.leaked
      ensures exists k :: 0 <= k < |m.pool| && m.Live(k) && m.pool[k].sendArg.value == a
    {
      var k :| 0 <= k < |n.pool| && n.Live(k) && n.pool[k].sendArg.value == a;
      assert m.Live(k);
    }
    LeakSockets(n, addr, arg);
  }

  lemma {:induction false} LeakSockets(n: State, addr: nat, arg: SendArg)
    requires n.MemoryOk() && n.SocketsOk() && addr !in n.heap && n.Leak(addr, arg).MemoryOk()
    ensures n.Leak(addr, arg).SocketsOk()
  {
    var m := n.Leak(addr, arg);
    assert forall k | 0 <= k < |n.pool| :: m.Live(k) <==> n.Live(k);
  }

  lemma {:induction false} DropMemory(n: State, i: nat)
    requires n.MemoryOk() && n.Live(i)
    ensures n.Drop(i).MemoryOk()
  {
    var m := n.Drop(i);
    assert forall k | 0 <= k < |n.pool| :: m.Live(k) <==> n.Live(k) && k != i;
    forall a | a in m.heap && a !in m.leaked
      ensures exists k :: 0 <= k < |m.pool| && m.Live(k) && m.pool[k].sendArg.value == a
    {
      var k :| 0 <= k < |n.pool| && n.Live(k) && n.pool[k].sendArg.value == a;
      assert m.Live(k);
    }
  }

  lemma {:induction false} DropService(n: State, i: nat)
    requires n.MemoryOk() && n.Live(i) && n.Drop(i).MemoryOk()
    ensures var m := n.Drop(i);
            |m.pool| == |n.pool| && forall k | 0 <= k < |n.pool| ::
              n.ArgOk(k) && m.ArgOk(k) && (m.Live(k) <==> n.Live(k) && k != i)
              && (m.Live(k) ==> m.FdOf(k) == n.FdOf(k) && m.pool[k] == n.pool[k])
  {
  }

  lemma {:induction false} DropSockets(n: State, i: nat)
    requires n.MemoryOk() && n.SocketsOk() && n.Live(i) && n.Drop(i).MemoryOk()
    ensures n.Drop(i).SocketsOk()
  {
    hide State.MemoryOk;
    DropService(n, i);
  }

  lemma {:induction false} DropTargets(n: State, i: nat)
    requires n.MemoryOk() && n.TargetsOk() && n.BuffersOk() && n.Live(i) && n.Drop(i).MemoryOk()
    ensures n.Drop(i).TargetsOk() && n.Drop(i).BuffersOk()
  {
    var m := n.Drop(i);
    assert forall k | 0 <= k < |n.pool| :: m.Live(k) <==> n.Live(k) && k != i;
  }

  lemma {:induction false} LiveArg(n: State, i: nat)
    requires n.MemoryOk() && n.Live(i)
    ensures n.ArgOk(i) && i < |n.pool| == POOL_SIZE
  {
  }

  lemma {:induction false} PoolIsFull(n: State)
    requires n.Ok()
    ensures |n.pool| == POOL_SIZE
  {
  }

  /** No context or relay is in use yet, and the three fixed sockets are distinct and open. */
  lemma {:induction false} StartOk(n: State)
    requires |n.pool| == |n.targets| == POOL_SIZE && |n.dialed| == |n.relays|
    requires forall i | 0 <= i < |n.pool| :: n.pool[i].state == Free && n.pool[i].rxUsed == 0
    requires forall j | 0 <= j < |n.relays| :: n.relays[j].state == Initial
    requires n.heap == map[] && n.leaked == {} && n.stray == {} && n.lastOpener == None
    requires n.fixed.server >= 0 && n.fixed.discovery >= 0 && n.fixed.broadcast >= 0
    requires n.fixed.server != n.fixed.discovery && n.fixed.server != n.fixed.broadcast && n.fixed.discovery != n.fixed.broadcast
    requires n.owners == map[n.fixed.server := Server, n.fixed.discovery := Discovery, n.fixed.broadcast := Broadcast]
    requires n.openFds == {n.fixed.server, n.fixed.discovery, n.fixed.broadcast}
    ensures n.Ok()
  {
  }

  lemma {:induction false} LiveFd(n: State, i: nat)
    requires n.Ok() && n.Live(i)
    ensures n.ArgOk(i) && i < |n.pool| == POOL_SIZE
    ensures n.FdOf(i) >= 0 && n.FdOf(i) in n.owners && n.owners[n.FdOf(i)] == Conn(i)
  {
    hide State.TargetsOk, State.BuffersOk, State.RelaysOk;
  }

  lemma {:induction false} DropOk(n: State, i: nat)
    requires n.Ok() && n.Live(i)
    ensures n.ArgOk(i) && n.Drop(i).Ok()
  {
    hide State.MemoryOk, State.SocketsOk, State.TargetsOk, State.BuffersOk;
    LiveArg(n, i);
    DropMemory(n, i);
    DropSockets(n, i);
    DropTargets(n, i);
  }

  /** Nothing about the connections changed. */
  ghost predicate SamePool(n: State, m: State) {
    m.pool == n.pool && m.heap == n.heap && m.leaked == n.leaked && m.targets == n.targets
  }

  lemma {:induction false} SamePoolOk(n: State, m: State)
    requires n.MemoryOk() && n.TargetsOk() && n.BuffersOk() && SamePool(n, m)
    ensures m.MemoryOk() && m.TargetsOk() && m.BuffersOk()
  {
    SameServiceMemory(n, m);
  }

  /** A relay that changes its state but not its descriptor, or has none before and after. */
  lemma {:induction false} SetRelayOk(n: State, j: nat, r: Relay)
    requires n.Ok() && j < |n.relays| && r.state != Opening
    requires if n.relays[j].HasSocket() then r.HasSocket() && r.sockFd == n.relays[j].sockFd else !r.HasSocket()
    requires r.state == RelayConnecting ==> n.relays[j].state == RelayConnecting && r.sendInstalled
    ensures n.SetRelay(j, r).Ok()
  {
    hide State.MemoryOk, State.TargetsOk, State.BuffersOk, State.SocketsOk;
    SamePoolOk(n, n.SetRelay(j, r));
    SetRelaySockets(n, j, r);
  }

  lemma {:induction false} SetRelaySockets(n: State, j: nat, r: Relay)
    requires n.MemoryOk() && n.SocketsOk() && j < |n.relays| && n.SetRelay(j, r).MemoryOk()
    requires if n.relays[j].HasSocket() then r.HasSocket() && r.sockFd == n.relays[j].sockFd else !r.HasSocket()
    ensures n.SetRelay(j, r).SocketsOk()
  {
    hide State.MemoryOk;
    SameArgs(n, n.SetRelay(j, r));
  }

  lemma {:induction false} SameArgs(n: State, m: State)
    requires n.MemoryOk() && SamePool(n, m)
    ensures forall k | 0 <= k < |n.pool| :: n.ArgOk(k) && m.ArgOk(k) && (m.Live(k) <==> n.Live(k))
  {
  }

  lemma {:induction false} AttachRelaySockets(n: State, j: nat, ip: Ip, fd: int)
    requires n.MemoryOk() && n.SocketsOk() && j < |n.relays| && !n.relays[j].HasSocket()
    requires fd >= 0 && fd !in n.openFds && n.AttachRelay(j, ip, fd).MemoryOk()
    ensures n.AttachRelay(j, ip, fd).SocketsOk()
  {
    hide State.MemoryOk;
    SameArgs(n, n.AttachRelay(j, ip, fd));
  }

  lemma {:induction false} AttachRelayOk(n: State, j: nat, ip: Ip, fd: int)
    requires n.Ok() && j < |n.relays| && !n.relays[j].HasSocket() && fd >= 0 && fd !in n.openFds
    ensures n.AttachRelay(j, ip, fd).Ok()
  {
    hide State.MemoryOk, State.TargetsOk, State.BuffersOk, State.SocketsOk;
    SamePoolOk(n, n.AttachRelay(j, ip, fd));
    AttachRelaySockets(n, j, ip, fd);
  }

  lemma {:induction false} StrayRelaySockets(n: State, j: nat, fd: int)
    requires n.MemoryOk() && n.SocketsOk() && j < |n.relays| && !n.relays[j].HasSocket()
    requires fd !in n.openFds && n.StrayRelay(j, fd).MemoryOk()
    ensures n.StrayRelay(j, fd).SocketsOk()
  {
    hide State.MemoryOk;
    SameArgs(n, n.StrayRelay(j, fd));
  }

  lemma {:induction false} StrayRelayOk(n: State, j: nat, fd: int)
    requires n.Ok() && j < |n.relays| && !n.relays[j].HasSocket() && fd !in n.openFds
    ensures n.StrayRelay(j, fd).Ok()
  {
    hide State.MemoryOk, State.TargetsOk, State.BuffersOk, State.SocketsOk;
    SamePoolOk(n, n.StrayRelay(j, fd));
    StrayRelaySockets(n, j, fd);
  }

  lemma {:induction false} DropRelaySockets(n: State, j: nat)
    requires n.MemoryOk() && n.SocketsOk() && j < |n.relays| && n.relays[j].HasSocket() && n.DropRelay(j).MemoryOk()
    ensures n.DropRelay(j).SocketsOk()
  {
    hide State.MemoryOk;
    SameArgs(n, n.DropRelay(j));
  }

  lemma {:induction false} DropRelayOk(n: State, j: nat)
    requires n.Ok() && j < |n.relays| && n.relays[j].HasSocket()
    ensures n.DropRelay(j).Ok()
  {
    hide State.MemoryOk, State.TargetsOk, State.BuffersOk, State.SocketsOk;
    SamePoolOk(n, n.DropRelay(j));
    DropRelaySockets(n, j);
  }

  lemma {:induction false} AbandonSockets(n: State, j: nat)
    requires n.MemoryOk() && n.SocketsOk() && j < |n.relays| && n.Abandon(j).MemoryOk()
    ensures n.Abandon(j).SocketsOk()
  {
    hide State.MemoryOk;
    SameArgs(n, n.Abandon(j));
  }

  lemma {:induction false} AbandonOk(n: State, j: nat)
    requires n.Ok() && j < |n.relays|
    ensures n.Abandon(j).Ok() && !n.Abandon(j).relays[j].HasSocket()
    ensures n.Abandon(j).openFds == n.openFds && |n.Abandon(j).relays| == |n.relays|
  {
    hide State.MemoryOk, State.TargetsOk, State.BuffersOk, State.SocketsOk;
    SamePoolOk(n, n.Abandon(j));
    AbandonSockets(n, j);
  }
}
