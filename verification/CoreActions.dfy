/**
 * What the wish core does between two looks of the main loop at its sockets: any number
 * of calls of the port's operations, in any order. The invariants of `Net` hold over all
 * such runs.
 */
module CoreActions {
  import opened Bits
  import opened CText
  import opened EventRing
  import opened Net

  /**
   * One call or state change of the core, with the results it gets from malloc and the socket
   * layer. A signal that ends an operation needs no action of its own: what the core does on it
   * is whatever comes next.
   */
  datatype Action =
    | InitContext(i: nat, viaRelay: bool)
    | OpenConnection(i: nat, ip: Ip, port: nat, addr: nat, sock: int, ret: ConnectResult)
    | CloseConnection(i: nat)
    | LeaveConnecting(i: nat)
    | Consume(i: nat, n: nat)
    | OpenRelay(j: nat, host: Option<Ip>, sock: int, ret: ConnectResult)
    | CloseRelay(j: nat)
    | AdvanceRelay(j: nat)
    | PostEvent(ev: WishEvent)

  /**
   * The contract of the core and of the layers below.
   * Contexts are initialised when free, opened when in use without a send_arg, and closed
   * when they have one; only wish_open_connection makes a context connecting; received data
   * is only ever taken out of the buffer; a relay may be opened at any time, and is closed and
   * advanced when it has a socket. malloc returns a block that is not in use, socket() a negative
   * value or a descriptor that is not open.
   */
  predicate Permitted(pool: seq<Context>, heap: map<nat, SendArg>, relays: seq<Relay>, openFds: set<int>, a: Action) {
    match a
    case InitContext(i, _) => i < |pool| && pool[i].state == Free
    case OpenConnection(i, _, _, addr, sock, _) =>
      i < |pool| && pool[i].state != Free && pool[i].sendArg == None && addr !in heap && NewSocket(openFds, sock)
    case CloseConnection(i) =>
      i < |pool| && pool[i].state != Free && pool[i].sendArg.Some? && pool[i].sendArg.value in heap
    case LeaveConnecting(i) => i < |pool| && pool[i].state != Free
    case Consume(i, k) => i < |pool| && pool[i].state != Free && k <= pool[i].rxUsed
    case OpenRelay(j, _, sock, _) => j < |relays| && NewSocket(openFds, sock)
    case CloseRelay(j) => j < |relays| && relays[j].HasSocket()
    case AdvanceRelay(j) => j < |relays| && relays[j].HasSocket()
    case PostEvent(_) => true
  }

  predicate NewSocket(openFds: set<int>, sock: int) {
    sock < 0 || sock !in openFds
  }

  predicate Allowed(n: State, a: Action) {
    Permitted(n.pool, n.heap, n.relays, n.openFds, a)
  }

  /** wish_open_connection */
  function Opened(n: State, i: nat, ip: Ip, port: nat, addr: nat, sock: int, ret: ConnectResult): State
    requires i < |n.pool|
  {
    if sock < 0 then n.Leak(addr, SendArg(sock, Unset))
    else n.Attach(i, addr, SendArg(sock, Remote(ip, port)), if ret == Already then Connecting else n.pool[i].transport)
  }

  /**
   * wish_relay_client_open, for a host that is a numeric address or has to be resolved. A
   * socket the relay still has is forgotten.
   */
  function RelayOpened(n: State, j: nat, host: Option<Ip>, sock: int, ret: ConnectResult): State
    requires j < |n.relays|
  {
    var m := n.Abandon(j);
    match host
    case None => m.SetRelay(j, m.relays[j].(state := Resolving))
    case Some(ip) =>
      if sock < 0 then m.SetRelay(j, m.relays[j].(state := WaitReconnect, sockFd := sock))
      else if ret == Already then m.AttachRelay(j, ip, sock)
      else m.StrayRelay(j, sock)
  }

  function Initialised(n: State, i: nat, viaRelay: bool): State
    requires i < |n.pool|
  {
    n.SetContext(i, Context(InUse, OtherTransport, None, viaRelay, 0))
  }

  /** An action that breaks the contract does not happen. */
  function Step(n: State, a: Action): State {
    if !Allowed(n, a) then n
    else match a
      case InitContext(i, viaRelay) => Initialised(n, i, viaRelay)
      case OpenConnection(i, ip, port, addr, sock, ret) => Opened(n, i, ip, port, addr, sock, ret)
      case CloseConnection(i) => n.Drop(i)
      case LeaveConnecting(i) => n.SetContext(i, n.pool[i].(transport := OtherTransport))
      case Consume(i, k) => n.SetContext(i, n.pool[i].(rxUsed := n.pool[i].rxUsed - k))
      case OpenRelay(j, host, sock, ret) => RelayOpened(n, j, host, sock, ret)
      case CloseRelay(j) => n.DropRelay(j)
      case AdvanceRelay(j) => n.SetRelay(j, n.relays[j].(state := Active))
      case PostEvent(_) => n
  }

  function RunScript(n: State, script: seq<Action>): State {
    if script == [] then n
    else Step(RunScript(n, script[..|script| - 1]), script[|script| - 1])
  }

  /** The events a script posts. */
  function PostedBy(script: seq<Action>): seq<WishEvent> {
    if script == [] then []
    else
      var front, last := script[..|script| - 1], script[|script| - 1];
      PostedBy(front) + (if last.PostEvent? then [last.ev] else [])
  }

  lemma {:induction false} StepOk(n: State, a: Action)
    requires n.Ok()
    ensures Step(n, a).Ok()
  {
    hide State.MemoryOk, State.SocketsOk;
    if Allowed(n, a) {
      match a {
        case InitContext(i, viaRelay) => SetContextOk(n, i, Context(InUse, OtherTransport, None, viaRelay, 0));
        case OpenConnection(i, ip, port, addr, sock, ret) => OpenedOk(n, i, ip, port, addr, sock, ret);
        case CloseConnection(i) => DropOk(n, i);
        case LeaveConnecting(i) => LeaveConnectingOk(n, i);
        case Consume(i, k) => ConsumeOk(n, i, k);
        case OpenRelay(j, host, sock, ret) => RelayOpenedOk(n, j, host, sock, ret);
        case CloseRelay(j) => DropRelayOk(n, j);
        case AdvanceRelay(j) => SetRelayOk(n, j, n.relays[j].(state := Active));
        case PostEvent(_) =>
      }
    }
  }

  lemma {:induction false} LeaveConnectingOk(n: State, i: nat)
    requires n.Ok() && i < |n.pool| && n.pool[i].state != Free
    ensures n.SetContext(i, n.pool[i].(transport := OtherTransport)).Ok()
  {
    hide State.MemoryOk, State.SocketsOk, State.TargetsOk, State.RelaysOk;
    SetContextOk(n, i, n.pool[i].(transport := OtherTransport));
  }

  lemma {:induction false} ConsumeOk(n: State, i: nat, k: nat)
    requires n.Ok() && i < |n.pool| && n.pool[i].state != Free && k <= n.pool[i].rxUsed
    ensures n.SetContext(i, n.pool[i].(rxUsed := n.pool[i].rxUsed - k)).Ok()
  {
    hide State.MemoryOk, State.SocketsOk, State.RelaysOk;
    SetContextOk(n, i, n.pool[i].(rxUsed := n.pool[i].rxUsed - k));
  }

  lemma {:induction false} OpenedOk(n: State, i: nat, ip: Ip, port: nat, addr: nat, sock: int, ret: ConnectResult)
    requires n.Ok() && i < |n.pool| && n.pool[i].state != Free && n.pool[i].sendArg == None
    requires addr !in n.heap && (sock < 0 || sock !in n.openFds)
    ensures Opened(n, i, ip, port, addr, sock, ret).Ok()
  {
    hide State.MemoryOk, State.SocketsOk, State.RelaysOk;
    if sock < 0 {
      LeakOk(n, addr, SendArg(sock, Unset));
    } else {
      AttachOk(n, i, addr, SendArg(sock, Remote(ip, port)), if ret == Already then Connecting else n.pool[i].transport);
    }
  }

  lemma {:induction false} RelayOpenedOk(n: State, j: nat, host: Option<Ip>, sock: int, ret: ConnectResult)
    requires n.Ok() && j < |n.relays| && (sock < 0 || sock !in n.openFds)
    ensures RelayOpened(n, j, host, sock, ret).Ok()
  {
    hide State.MemoryOk, State.SocketsOk, State.TargetsOk, State.BuffersOk, State.RelaysOk, State.Abandon;
    AbandonOk(n, j);
    var m := n.Abandon(j);
    match host {
      case None => SetRelayOk(m, j, m.relays[j].(state := Resolving));
      case Some(ip) =>
        if sock < 0 {
          SetRelayOk(m, j, m.relays[j].(state := WaitReconnect, sockFd := sock));
        } else if ret == Already {
          AttachRelayOk(m, j, ip, sock);
        } else {
          StrayRelayOk(m, j, sock);
        }
    }
  }

  /**
   * wish_open_connection, told from its arguments: without a socket the block is lost; with one the
   * context holds the socket and the address it was given, and waits for the connection when
   * connect says that it is in progress.
   */
  lemma {:induction false} OpenConnectionDoes(n: State, i: nat, ip: Ip, port: nat, addr: nat, sock: int, ret: ConnectResult)
    requires Allowed(n, OpenConnection(i, ip, port, addr, sock, ret))
    ensures var m := Step(n, OpenConnection(i, ip, port, addr, sock, ret));
            && (sock >= 0 ==>
                  && Registered(n, m, i, n.pool[i].(transport := if ret == Already then Connecting else n.pool[i].transport),
                                addr, sock, Remote(ip, port))
                  && m.Live(i) && m.ArgOk(i) && m.FdOf(i) == sock && m.owners == n.owners[sock := Conn(i)])
            && (sock < 0 ==>
                  m.pool == n.pool && m.heap == n.heap[addr := SendArg(sock, Unset)] && m.leaked == n.leaked + {addr}
                  && m.openFds == n.openFds && m.relays == n.relays && m.owners == n.owners)
  {
  }

  /**
   * wish_relay_client_open, told from its arguments, for every relay: RESOLVING for a name;
   * CONNECTING, with the new socket and the address kept for the retry, when connect is in
   * progress; WAIT_RECONNECT otherwise, the address as before. No socket is closed, and nothing
   * else changes.
   */
  lemma {:induction false} RelayOpenEnds(n: State, j: nat, host: Option<Ip>, sock: int, ret: ConnectResult)
    requires j < |n.relays|
    ensures var m := RelayOpened(n, j, host, sock, ret);
            var r := m.relays[j];
            && |m.relays| == |n.relays| && (forall k | 0 <= k < |n.relays| && k != j :: m.relays[k] == n.relays[k])
            && m.pool == n.pool && m.heap == n.heap
            && m.openFds == (if host.Some? && sock >= 0 then n.openFds + {sock} else n.openFds)
            && (r.state == Resolving <==> host == None)
            && (r.state == RelayConnecting <==> host.Some? && sock >= 0 && ret == Already)
            && (r.state == WaitReconnect <==> host.Some? && (sock < 0 || ret != Already))
            && (if r.state == RelayConnecting then
                  r.sockFd == sock && r.sendInstalled && m.relayIp == host.value && m.lastOpener == Some(j)
                  && (j < |n.dialed| ==> m.dialed == n.dialed[j := host.value])
                else m.relayIp == n.relayIp && m.lastOpener == n.lastOpener && m.dialed == n.dialed)
  {
  }

  /** Closing a connection or a relay gives back what is its own and leaves everything else alone. */
  lemma {:induction false} ClosesDo(n: State, k: nat)
    ensures Allowed(n, CloseConnection(k)) ==> n.Live(k) && n.ArgOk(k) && Ended(n, Step(n, CloseConnection(k)), k)
    ensures Allowed(n, CloseRelay(k)) ==> RelayEnded(n, Step(n, CloseRelay(k)), k)
  {
  }

  /** The invariants hold over every run of the core. */
  lemma {:induction false} RunOk(n: State, script: seq<Action>)
    requires n.Ok()
    ensures RunScript(n, script).Ok()
  {
    hide State.Ok, Step;
    if script != [] {
      RunOk(n, script[..|script| - 1]);
      StepOk(RunScript(n, script[..|script| - 1]), script[|script| - 1]);
    }
  }

  /** The pool, the relay list and the fixed sockets stay what they are. */
  lemma {:induction false} RunKeepsSizes(n: State, script: seq<Action>)
    ensures var m := RunScript(n, script);
            |m.pool| == |n.pool| && |m.relays| == |n.relays| && m.fixed == n.fixed
  {
    hide Step;
    if script != [] {
      RunKeepsSizes(n, script[..|script| - 1]);
      StepKeepsSizes(RunScript(n, script[..|script| - 1]), script[|script| - 1]);
    }
  }

  lemma {:induction false} StepKeepsSizes(n: State, a: Action)
    ensures var m := Step(n, a); |m.pool| == |n.pool| && |m.relays| == |n.relays| && m.fixed == n.fixed
  {
  }
}
