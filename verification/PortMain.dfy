/**
 * The main loop of port_main.c and the connection and relay operations of port_net.c and
 * relay_client.c, updating their variables in place. Each method is proved to do what its
 * counterpart in `Net`, `CoreActions` or `Dispatch` says.
 */
module PortMain {
  import opened Bits
  import opened CText
  import opened CoreActions
  import opened Dispatch
  import opened DottedQuad
  import opened EventRing
  import opened Gates
  import opened InetAton
  import opened Net
  import opened Sockets

  /** The arguments of one call of select. */
  datatype SelectCall = SelectCall(rfds: set<int>, wfds: set<int>, nfds: int) {
    ghost predicate Sound() {
      rfds !! wfds && forall fd | fd in rfds || fd in wfds :: 0 <= fd < nfds
    }
  }

  /** Sound calls whose bounds lie between two values and never shrink. */
  ghost predicate SoundCalls(calls: seq<SelectCall>, lo: int, hi: int) {
    && (forall k | 0 <= k < |calls| :: calls[k].Sound() && lo <= calls[k].nfds <= hi)
    && (forall j, k | 0 <= j < k < |calls| :: calls[j].nfds <= calls[k].nfds)
  }

  lemma NoSelect(fd: int, rounds: seq<Round>)
    ensures SoundCalls([], fd, fd) && |Seconds(rounds)| == |rounds|
  {
  }

  lemma OneMoreSelect(calls: seq<SelectCall>, lo: int, hi: int, call: SelectCall)
    requires SoundCalls(calls, lo, hi) && lo <= hi <= call.nfds && call.Sound()
    ensures SoundCalls(calls + [call], lo, call.nfds)
  {
    hide SelectCall.Sound;
  }

  lemma OneMoreSecond(rounds: seq<Round>, k: nat, earlier: seq<int>)
    requires k < |rounds|
    ensures earlier + Seconds(rounds)[..k + 1] == earlier + Seconds(rounds)[..k] + [rounds[k].secCnt]
  {
  }

  function Seconds(rounds: seq<Round>): seq<int> {
    seq(|rounds|, k requires 0 <= k < |rounds| => rounds[k].secCnt)
  }

  class Port {
    const endian: Endian
    const serverFd: int
    const wldFd: int
    const events: EventQueue
    const clock: Clock

    var pool: seq<Context>
    var heap: map<nat, SendArg>
    var relays: seq<Relay>
    var relayIp: Ip
    var maxFd: int

    /** The socket layer's table of open descriptors. */
    var openFds: set<int>

    /** The books of `Net.State`. */
    ghost var fixed: Fixed
    ghost var owners: map<int, Owner>
    ghost var stray: set<int>
    ghost var leaked: set<nat>
    ghost var targets: seq<Remote>
    ghost var dialed: seq<Ip>
    ghost var lastOpener: Option<nat>

    ghost function View(): State
      reads this
    {
      State(pool, heap, relays, relayIp, openFds, fixed, owners, stray, leaked, targets, dialed, lastOpener)
    }

    /** The ring, the clock and the fixed sockets are in order, whatever became of the descriptors. */
    ghost predicate Framed()
      reads this, events, events.events, clock
    {
      fixed.server == serverFd && fixed.discovery == wldFd && events.Valid() && clock.Valid()
    }

    ghost predicate Valid()
      reads this, events, events.events, clock
    {
      Framed() && View().Ok()
    }

    /** The state in which port_main enters its loop, after a setup whose sockets were all made. */
    constructor (endian: Endian, serverFd: int, wldFd: int, bcastFd: int, relays: seq<Relay>)
      requires serverFd >= 0 && wldFd >= 0 && bcastFd >= 0 && serverFd != wldFd && serverFd != bcastFd && wldFd != bcastFd
      requires forall j | 0 <= j < |relays| :: relays[j].state == Initial
      ensures Valid() && maxFd == 0 && this.relays == relays && events.posted == [] && events.taken == 0
      ensures clock.reportRounds == clock.periodicRounds == []
      ensures forall i | 0 <= i < |pool| :: pool[i].state == Free
      ensures heap == map[] && leaked == {} && stray == {} && openFds == {serverFd, wldFd, bcastFd}
      ensures fresh(events) && fresh(events.events) && fresh(clock)
    {
      this.endian, this.serverFd, this.wldFd := endian, serverFd, wldFd;
      events := new EventQueue();
      clock := new Clock();
      pool := seq(POOL_SIZE, i => Context(Free, OtherTransport, None, false, 0));
      heap, this.relays, relayIp, maxFd := map[], relays, [0, 0, 0, 0], 0;
      openFds := {serverFd, wldFd, bcastFd};
      fixed := Fixed(serverFd, wldFd, bcastFd);
      owners := map[serverFd := Server, wldFd := Discovery, bcastFd := Broadcast];
      stray, leaked, lastOpener := {}, {}, None;
      targets := seq(POOL_SIZE, i => Unset);
      dialed := seq(|relays|, i => [0, 0, 0, 0]);
      new;
      hide State.Ok;
      StartOk(View());
    }

    // ----- port_net.c

    /** The bytes of sin_addr after the address was printed into a buffer of that size and parsed back. */
    method SinAddrOf(ip: Ip, size: nat) returns (bytes: Ip)
      requires size >= 16
      ensures bytes == ip
    {
      hide Memory;
      var sinAddr := new InAddr();
      var ok := AddressToSockaddr(endian, ip, size, sinAddr);
      bytes := Memory(endian, sinAddr.sAddr);
    }

    /**
     * wish_open_connection for context i; malloc returns the block `addr`, socket() `sock`, and
     * connect(), which is given `called`, `ret`.
     */
    method WishOpenConnection(i: nat, ip: Ip, port: nat, addr: nat, sock: int, ret: ConnectResult)
      returns (r: int, called: Option<Remote>)
      requires i < |pool|
      modifies this`pool, this`heap, this`openFds, this`owners, this`targets, this`leaked
      ensures View() == Opened(old(View()), i, ip, port, addr, sock, ret)
      ensures r == if sock < 0 then 1 else 0
      ensures called == if sock < 0 then None else Some(Remote(ip, port))
    {
      called := None;
      var sendArg := SendArg(sock, Unset);
      if sock < 0 {
        heap := heap[addr := sendArg];
        leaked := leaked + {addr};
        return 1, None;
      }
      openFds, owners := openFds + {sock}, owners[sock := Conn(i)];
      pool := pool[i := pool[i].(sendArg := Some(addr))];
      var sinAddr := SinAddrOf(ip, 20);
      sendArg := sendArg.(remote := Remote(sinAddr, port));
      heap := heap[addr := sendArg];
      called := Some(sendArg.remote);
      targets := if i < |targets| then targets[i := Remote(ip, port)] else targets;
      if ret == Already {
        pool := pool[i := pool[i].(transport := Connecting)];
      }
      r := 0;
    }

    /** free(ctx->send_arg): the block must not have been freed before. */
    method FreeSendArg(addr: nat)
      requires addr in heap
      modifies this`heap
      ensures heap == old(heap) - {addr}
    {
      heap := heap - {addr};
    }

    /** wish_close_connection */
    method WishCloseConnection(i: nat)
      requires View().Ok() && View().Live(i)
      modifies this`pool, this`heap, this`openFds, this`owners
      ensures old(View()).ArgOk(i) && View() == old(View()).Drop(i)
    {
      hide State.SocketsOk, State.TargetsOk, State.BuffersOk, State.RelaysOk;
      LiveFd(View(), i);
      var sockFd := heap[pool[i].sendArg.value].sockFd;
      pool := pool[i := pool[i].(state := Closing)];
      if sockFd >= 0 {
        openFds := openFds - {sockFd};
      }
      FreeSendArg(pool[i].sendArg.value);
      pool := pool[i := pool[i].(state := Free)];
      owners := owners - {sockFd};
    }

    /**
     * connect_fail_cb, and the branch for a peer that closed: close, free, and the signal
     * TCP_DISCONNECTED, on which the core frees the context.
     */
    method Disconnect(i: nat)
      requires View().Ok() && View().Live(i)
      modifies this`pool, this`heap, this`openFds, this`owners
      ensures old(View()).ArgOk(i) && View() == old(View()).Drop(i)
    {
      hide State.SocketsOk, State.TargetsOk, State.BuffersOk, State.RelaysOk;
      LiveFd(View(), i);
      var c := pool[i];
      if c.sendArg != None {
        var sockFd := heap[c.sendArg.value].sockFd;
        openFds, owners := openFds - {sockFd}, owners - {sockFd};
        FreeSendArg(c.sendArg.value);
      }
      pool := pool[i := c.(state := Free)];
    }

    // ----- relay_client.c

    /** port_relay_client_open; `called` is the address given to connect. */
    method PortRelayClientOpen(j: nat, ip: Ip, sock: int, ret: ConnectResult) returns (called: Option<Ip>)
      requires j < |relays| && relays[j].state == Opening
      modifies this`relays, this`relayIp, this`openFds, this`owners, this`stray, this`dialed, this`lastOpener
      ensures View() == RelayOpened(old(View()), j, Some(ip), sock, ret)
      ensures called == if sock < 0 then None else Some(ip)
    {
      called := None;
      var relay := relays[j].(state := RelayConnecting, sockFd := sock);
      if sock < 0 {
        relays := relays[j := relay.(state := WaitReconnect)];
        return;
      }
      openFds := openFds + {sock};
      var sinAddr := SinAddrOf(ip, 16);
      called := Some(sinAddr);
      if ret == Already {
        relay := relay.(sendInstalled := true);
        relayIp := ip;
        owners, lastOpener := owners[sock := RelayOf(j)], Some(j);
        dialed := if j < |dialed| then dialed[j := ip] else dialed;
        relays := relays[j := relay];
      } else {
        stray := stray + {sock};
        relays := relays[j := relay.(state := WaitReconnect)];
      }
    }

    /** wish_relay_client_open; `host` is what wish_parse_transport_ip made of the relay's host. */
    method WishRelayClientOpen(j: nat, host: Option<Ip>, sock: int, ret: ConnectResult)
      requires j < |relays|
      modifies this`relays, this`relayIp, this`openFds, this`owners, this`stray, this`dialed, this`lastOpener
      ensures View() == RelayOpened(old(View()), j, host, sock, ret)
    {
      Forget(j);
      relays := relays[j := relays[j].(state := Opening)];
      match host {
        case None => relays := relays[j := relays[j].(state := Resolving)];
        case Some(ip) => var called := PortRelayClientOpen(j, ip, sock, ret);
      }
    }

    /** The books when a relay is opened while it has a socket: nobody owns that one any more. */
    ghost method Forget(j: nat)
      requires j < |relays|
      modifies this`owners, this`stray
      ensures owners == old(View()).Abandon(j).owners && stray == old(View()).Abandon(j).stray
    {
      if relays[j].HasSocket() {
        owners, stray := owners - {relays[j].sockFd}, stray + {relays[j].sockFd};
      }
    }

    /** close(relay->sockfd) and relay_ctrl_disconnect_cb or relay_ctrl_connect_fail_cb, in either order. */
    method RelayGone(j: nat)
      requires j < |relays|
      modifies this`relays, this`openFds, this`owners
      ensures View() == old(View()).DropRelay(j)
    {
      openFds, owners := openFds - {relays[j].sockFd}, owners - {relays[j].sockFd};
      relays := relays[j := relays[j].(state := WaitReconnect)];
    }

    // ----- The wish core

    method CoreAct(a: Action)
      requires Valid()
      modifies this, events, events.events
      ensures Valid() && View() == Step(old(View()), a)
      ensures events.posted == old(events.posted) + PostedBy([a]) && events.taken == old(events.taken)
      ensures maxFd == old(maxFd)
    {
      hide State.Ok;
      StepOk(View(), a);
      assert [a][..0] == [];
      if Permitted(pool, heap, relays, openFds, a) {
        match a {
          case InitContext(i, viaRelay) =>
            pool := pool[i := Context(InUse, OtherTransport, None, viaRelay, 0)];
          case OpenConnection(i, ip, port, addr, sock, ret) =>
            var r, called := WishOpenConnection(i, ip, port, addr, sock, ret);
          case CloseConnection(i) =>
            WishCloseConnection(i);
          case LeaveConnecting(i) =>
            pool := pool[i := pool[i].(transport := OtherTransport)];
          case Consume(i, k) =>
            pool := pool[i := pool[i].(rxUsed := pool[i].rxUsed - k)];
          case OpenRelay(j, host, sock, ret) =>
            WishRelayClientOpen(j, host, sock, ret);
          case CloseRelay(j) =>
            RelayGone(j);
          case AdvanceRelay(j) =>
            relays := relays[j := relays[j].(state := Active)];
          case PostEvent(ev) =>
            var warned := events.Notify(ev);
        }
      }
    }

    /** Whatever the core does when it is called. */
    method CoreRun(script: seq<Action>)
      requires Valid()
      modifies this, events, events.events
      ensures Valid() && View() == RunScript(old(View()), script)
      ensures events.posted == old(events.posted) + PostedBy(script) && events.taken == old(events.taken)
      ensures maxFd == old(maxFd)
    {
      hide State.Ok, Step, EventQueue.Valid, Clock.Valid;
      for k := 0 to |script|
        invariant Valid() && View() == RunScript(old(View()), script[..k])
        invariant events.posted == old(events.posted) + PostedBy(script[..k]) && events.taken == old(events.taken)
        invariant maxFd == old(maxFd)
      {
        assert script[..k + 1][..k] == script[..k];
        assert [script[k]][..0] == [];
        CoreAct(script[k]);
      }
      assert script[..|script|] == script;
    }

    // ----- port_main.c

    method UpdateMaxFd(fd: int)
      modifies this`maxFd
      ensures maxFd > fd && maxFd >= old(maxFd)
      ensures maxFd == old(maxFd) || maxFd == fd + 1
    {
      if fd >= maxFd {
        maxFd := fd + 1;
      }
    }

    /** The descriptor sets for select, built over the fixed sockets, the relays and the pool. */
    method BuildSets() returns (rfds: set<int>, wfds: set<int>)
      requires View().Ok() && fixed.server == serverFd && fixed.discovery == wldFd
      modifies this`maxFd
      ensures rfds == ReadFds(View(), |relays|, |pool|) && wfds == WriteFds(View(), |relays|, |pool|)
      ensures maxFd >= old(maxFd) && rfds !! wfds && NoAcceptedIn(View(), wfds)
      ensures forall fd | fd in rfds || fd in wfds :: 0 <= fd < maxFd
    {
      hide State.Ok, ReadFds, WriteFds, NoAcceptedIn;
      ghost var n := View();
      rfds, wfds := {serverFd}, {};
      UpdateMaxFd(serverFd);
      rfds := rfds + {wldFd};
      UpdateMaxFd(wldFd);
      NoneYet(n);
      for j := 0 to |relays|
        invariant rfds == ReadFds(n, j, 0) && wfds == WriteFds(n, j, 0)
        invariant maxFd >= old(maxFd) && forall fd | fd in rfds || fd in wfds :: fd < maxFd
      {
        var relay := relays[j];
        OneMoreRelay(n, j);
        if relay.state == RelayConnecting {
          if relay.sockFd != -1 {
            wfds := wfds + {relay.sockFd};
            UpdateMaxFd(relay.sockFd);
          }
        } else if relay.state == WaitReconnect {
        } else if relay.state == Resolving {
        } else if relay.state != Initial {
          if relay.sockFd != -1 {
            rfds := rfds + {relay.sockFd};
            UpdateMaxFd(relay.sockFd);
          }
        }
      }
      for i := 0 to |pool|
        invariant rfds == ReadFds(n, |relays|, i) && wfds == WriteFds(n, |relays|, i)
        invariant maxFd >= old(maxFd) && forall fd | fd in rfds || fd in wfds :: fd < maxFd
      {
        var ctx := pool[i];
        OneMoreContext(n, i);
        if ctx.state == Free || ctx.sendArg == None {
          continue;
        }
        LiveFd(n, i);
        var sockFd := heap[ctx.sendArg.value].sockFd;
        if ctx.transport == Connecting {
          wfds := wfds + {sockFd};
        } else {
          rfds := rfds + {sockFd};
        }
        UpdateMaxFd(sockFd);
      }
      SelectSetsOk(n);
    }

    /** recv(sockfd, buffer, requested): never more than was asked for. */
    method Recv(requested: nat, io: Io) returns (readLen: int)
      ensures readLen == ReadLen(requested, io) && readLen <= requested
    {
      readLen := if io.recvLen > requested then requested else io.recvLen;
    }

    /**
     * One context of the pool. `requested` is the length given to recv, `retried` the address
     * given to connect.
     */
    method ServeConnection(i: nat, rf: set<int>, wf: set<int>, io: Io)
      returns (sound: bool, requested: Option<nat>, retried: Option<Remote>)
      requires Valid() && i < |pool| && rf !! wf && NoAcceptedIn(View(), wf)
      modifies this, events, events.events
      ensures Framed() && maxFd == old(maxFd)
      ensures var o := ServeConn(old(View()), i, rf, wf, io);
              View() == o.net && sound == o.sound
              && events.posted == old(events.posted) + Events(o.posts) && events.taken == old(events.taken)
              && o.calls == CallsOf(old(View()), i, io, requested, retried)
    {
      hide State.Ok, NoAcceptedIn, EventQueue.Valid, Clock.Valid, ServeConn, CallsOf;
      sound, requested, retried := true, None, None;
      UntouchedServes(View(), i, rf, wf, io);
      var ctx := pool[i];
      if ctx.state == Free {
        return;
      }
      if ctx.sendArg == None {
        return;
      }
      LiveFd(View(), i);
      var sockFd := heap[ctx.sendArg.value].sockFd;
      if sockFd in rf {
        requested := ReadReady(i, rf, wf, io);
      }
      if sockFd in wf {
        sound, retried := WriteReady(i, rf, wf, io);
      }
    }

    /** A context whose socket is ready for reading. */
    method ReadReady(i: nat, ghost rf: set<int>, ghost wf: set<int>, io: Io) returns (requested: Option<nat>)
      requires Valid() && i < |pool| && rf !! wf && NoAcceptedIn(View(), wf)
      requires View().Live(i) && View().ArgOk(i) && View().FdOf(i) in rf
      modifies this, events, events.events
      ensures Framed() && maxFd == old(maxFd)
      ensures var o := ServeConn(old(View()), i, rf, wf, io);
              View() == o.net && o.sound
              && events.posted == old(events.posted) + Events(o.posts) && events.taken == old(events.taken)
              && o.calls == CallsOf(old(View()), i, io, requested, None)
    {
      hide State.Ok, NoAcceptedIn, RunScript, EventQueue.Valid, Clock.Valid, FailedOpens, StrayOpens, OpensOf, PostedBy;
      requested := None;
      ghost var n := View();
      ServeConnFeedsOnce(n, i, rf, wf, io);
      NoPosts();
      BufferHasRoom(n, i);
      BeforeCoreServing(n, i, rf, wf, io);
      var ctx := pool[i];
      var rbFree := RX_SIZE - ctx.rxUsed;
      if rbFree == 0 {
        return;
      }
      var readBufLen := if rbFree > MAX_READ then MAX_READ else rbFree;
      requested := Some(readBufLen);
      var readLen := Recv(readBufLen, io);
      if readLen > 0 {
        pool := pool[i := ctx.(rxUsed := ctx.rxUsed + readLen)];
        CoreRun(io.script);
        var warned := events.Notify(WishEvent(NewData, i));
      } else if readLen == 0 {
        Disconnect(i);
        CoreRun(io.script);
      }
    }

    /** A context whose socket is ready for writing: connect is called again. */
    method WriteReady(i: nat, ghost rf: set<int>, ghost wf: set<int>, io: Io)
      returns (sound: bool, retried: Option<Remote>)
      requires Valid() && i < |pool| && rf !! wf && NoAcceptedIn(View(), wf)
      requires View().Live(i) && View().ArgOk(i) && View().FdOf(i) in wf
      modifies this, events, events.events
      ensures Framed() && maxFd == old(maxFd)
      ensures var o := ServeConn(old(View()), i, rf, wf, io);
              View() == o.net && sound == o.sound
              && events.posted == old(events.posted) + Events(o.posts) && events.taken == old(events.taken)
              && o.calls == CallsOf(old(View()), i, io, None, retried)
    {
      hide State.Ok, NoAcceptedIn, RunScript, EventQueue.Valid, Clock.Valid, FailedOpens, StrayOpens, OpensOf, PostedBy;
      sound := true;
      ghost var n := View();
      ServeConnFeedsOnce(n, i, rf, wf, io);
      NoPosts();
      var sendArg := heap[pool[i].sendArg.value];
      retried := Some(sendArg.remote);
      if io.ret == Zero || io.ret == Positive {
        if pool[i].transport == Connecting {
          CoreRun(io.script);
        }
      } else {
        BeforeCoreServing(n, i, rf, wf, io);
        Disconnect(i);
        CoreRun(io.script);
        sound := sendArg.sockFd !in openFds;
        openFds := openFds - {sendArg.sockFd};
      }
    }

    /** One relay client; `retried` is the address from which the one of a repeated connect is made. */
    method ServeRelayClient(j: nat, rf: set<int>, wf: set<int>, io: Io) returns (retried: Option<Ip>)
      requires Valid() && j < |relays| && NoAcceptedIn(View(), wf)
      modifies this, events, events.events
      ensures Valid() && NoAcceptedIn(View(), wf) && maxFd == old(maxFd)
      ensures var o := ServeRelay(old(View()), j, rf, wf, io);
              View() == o.net
              && events.posted == old(events.posted) + Events(o.posts) && events.taken == old(events.taken)
      ensures retried.Some? <==> old(relays)[j].state == RelayConnecting && old(relays)[j].sockFd in wf
      ensures retried.Some? ==>
                retried.value == old(relayIp)
                && (retried.value == old(dialed)[j] <==> old(dialed)[old(lastOpener).value] == old(dialed)[j])
    {
      hide State.Ok, NoAcceptedIn, RunScript, EventQueue.Valid, Clock.Valid, FailedOpens, StrayOpens, OpensOf, PostedBy, Faithful;
      ServeRelayFaithful(View(), j, rf, wf, io);
      NoPosts();
      EventsOfCore(PostedBy(io.script));
      retried := None;
      var relay := relays[j];
      if relay.state == RelayConnecting {
        ConnectingRelay(View(), j);
        RelaysShareOneAddress(View(), j);
      }
      if relay.state == RelayConnecting && relay.sockFd != -1 && relay.sockFd in wf {
        retried := Some(relayIp);
        if io.ret == Zero || io.ret == Positive {
          CoreRun(io.script);
        } else if io.ret == Already {
        } else {
          RelayGone(j);
        }
      } else if relay.state == WaitReconnect {
      } else if relay.state == Resolving {
      } else if relay.state != Initial && relay.sockFd != -1 && relay.sockFd in rf {
        var readLen := Recv(1, io);
        if readLen > 0 {
          CoreRun(io.script);
        } else if readLen == 0 {
          RelayGone(j);
        }
      }
    }

    /** A connection request on the server socket; a failure of accept is not noticed. */
    method AcceptConnection(rf: set<int>, a: Incoming) returns (sound: bool)
      requires Valid()
      modifies this, events, events.events
      ensures Framed() && maxFd == old(maxFd)
      ensures var o := ServeServer(old(View()), rf, a);
              View() == o.net && sound == o.sound
              && events.posted == old(events.posted) + Events(o.posts) && events.taken == old(events.taken)
    {
      hide State.Ok, RunScript, EventQueue.Valid, Clock.Valid, FailedOpens, StrayOpens, OpensOf, PostedBy;
      NoPosts();
      EventsOfCore(PostedBy(a.script));
      sound := true;
      if serverFd in rf && Acceptable(pool, heap, openFds, a) {
        match a.context {
          case None =>
            Refuse(a.newSock);
          case Some(i) =>
            AcceptExact(View(), i, a.addr, a.newSock);
            Register(i, a.addr, a.newSock);
            sound := a.newSock >= 0;
            if sound {
              CoreRun(a.script);
            }
        }
      }
    }

    /** accept, and the close of a connection for which there is no context. */
    method Refuse(newSock: int)
      requires newSock !in openFds || newSock < 0
      modifies this`openFds
      ensures openFds == old(openFds)
    {
      if newSock >= 0 {
        openFds := openFds + {newSock};
        openFds := openFds - {newSock};
      }
    }

    /** accept, wish_connection_init and the registration of the new send_arg. */
    method Register(i: nat, addr: nat, newSock: int)
      requires i < |pool|
      modifies this`pool, this`heap, this`openFds, this`owners
      ensures View() == Accepted(old(View()), i, addr, newSock)
    {
      openFds := openFds + {newSock};
      pool := pool[i := Context(InUse, OtherTransport, None, false, 0)];
      var sendArg := SendArg(newSock, Unset);
      heap := heap[addr := sendArg];
      pool := pool[i := pool[i].(sendArg := Some(addr))];
      owners := owners[newSock := Conn(i)];
    }

    method ServeRelayClients(rf: set<int>, wf: set<int>, io: nat -> Io)
      requires Valid() && NoAcceptedIn(View(), wf)
      modifies this, events, events.events
      ensures Valid() && NoAcceptedIn(View(), wf) && maxFd == old(maxFd)
      ensures var o := ServeRelays(old(View()), |old(relays)|, rf, wf, io);
              View() == o.net
              && events.posted == old(events.posted) + Events(o.posts) && events.taken == old(events.taken)
    {
      hide State.Ok, NoAcceptedIn, ServeRelay, EventQueue.Valid, Clock.Valid, Events;
      NoPosts();
      var j := 0;
      while j < |relays|
        invariant j <= |relays| == |old(relays)|
        invariant Valid() && NoAcceptedIn(View(), wf) && maxFd == old(maxFd)
        invariant var o := ServeRelays(old(View()), j, rf, wf, io);
                  View() == o.net && events.posted == old(events.posted) + Events(o.posts) && events.taken == old(events.taken)
      {
        ServeRelaySizes(View(), j, rf, wf, io(j));
        EventsThen(ServeRelays(old(View()), j, rf, wf, io).posts, ServeRelay(View(), j, rf, wf, io(j)).posts);
        var retried := ServeRelayClient(j, rf, wf, io(j));
        j := j + 1;
      }
    }

    /** The pool, as far as all descriptors stay known; the calls made are those of the function. */
    method ServeConnections(rf: set<int>, wf: set<int>, io: nat -> Io) returns (sound: bool)
      requires Valid() && rf !! wf && NoAcceptedIn(View(), wf)
      modifies this, events, events.events
      ensures Framed() && maxFd == old(maxFd)
      ensures var o := ServeConns(old(View()), POOL_SIZE, rf, wf, io);
              View() == o.net && sound == o.sound
              && events.posted == old(events.posted) + Events(o.posts) && events.taken == old(events.taken)
    {
      hide State.Ok, NoAcceptedIn, ServeConn, EventQueue.Valid, Clock.Valid, Events, Faithful;
      NoPosts();
      PoolIsFull(View());
      sound := true;
      for i := 0 to POOL_SIZE
        invariant |pool| == POOL_SIZE && Framed() && maxFd == old(maxFd)
        invariant var o := ServeConns(old(View()), i, rf, wf, io);
                  View() == o.net && sound == o.sound
                  && events.posted == old(events.posted) + Events(o.posts) && events.taken == old(events.taken)
        invariant sound ==> View().Ok() && NoAcceptedIn(View(), wf)
      {
        if sound {
          ServeConnFaithful(View(), i, rf, wf, io(i));
          SoundIsOk(View(), ServeConn(View(), i, rf, wf, io(i)));
          ServeConnSizes(View(), i, rf, wf, io(i));
          EventsThen(ServeConns(old(View()), i, rf, wf, io).posts, ServeConn(View(), i, rf, wf, io(i)).posts);
          var requested, retried;
          sound, requested, retried := ServeConnection(i, rf, wf, io(i));
        }
      }
    }

    /** read_wish_local_discovery, when its socket is ready. */
    method Discover(rf: set<int>, r: Round)
      requires Valid()
      modifies this, events, events.events
      ensures Valid() && maxFd == old(maxFd)
      ensures var o := ServeDiscovery(old(View()), rf, r);
              View() == o.net
              && events.posted == old(events.posted) + Events(o.posts) && events.taken == old(events.taken)
    {
      hide State.Ok, RunScript, EventQueue.Valid, Clock.Valid, FailedOpens, StrayOpens, OpensOf, PostedBy;
      NoPosts();
      EventsOfCore(PostedBy(r.discovered));
      if wldFd in rf {
        CoreRun(r.discovered);
      }
    }

    /** Everything between select and the time gates. */
    method Serve(rf: set<int>, wf: set<int>, r: Round) returns (sound: bool)
      requires Valid() && rf !! wf && NoAcceptedIn(View(), wf)
      modifies this, events, events.events
      ensures Framed() && maxFd == old(maxFd)
      ensures var o := ServeAll(old(View()), rf, wf, r);
              View() == o.net && sound == o.sound
              && events.posted == old(events.posted) + Events(o.posts) && events.taken == old(events.taken)
    {
      hide State.Ok, NoAcceptedIn, EventQueue.Valid, Clock.Valid, Events, Faithful;
      hide ServeDiscovery, ServeRelays, ServeConns, ServeServer;
      ghost var n := View();
      DiscoveryFaithful(n, rf, wf, r);
      ghost var o1 := ServeDiscovery(n, rf, r);
      DiscoverySizes(n, rf, r);
      Discover(rf, r);
      ghost var o2 := ServeRelays(o1.net, |n.relays|, rf, wf, r.relayIo);
      EventsThen(o1.posts, o2.posts);
      ServeRelayClients(rf, wf, r.relayIo);
      ghost var o3 := ServeConns(o2.net, POOL_SIZE, rf, wf, r.connIo);
      EventsThen(o1.posts + o2.posts, o3.posts);
      ServeConnsFaithful(o2.net, POOL_SIZE, rf, wf, r.connIo);
      SoundIsOk(o2.net, o3);
      sound := ServeConnections(rf, wf, r.connIo);
      if sound {
        EventsThen(o1.posts + o2.posts + o3.posts, ServeServer(o3.net, rf, r.incoming).posts);
        sound := AcceptConnection(rf, r.incoming);
      }
    }

    /** What the loop does with the result of select. */
    method ServeReady(rfds: set<int>, wfds: set<int>, r: Round) returns (sound: bool)
      requires Valid() && rfds !! wfds && NoAcceptedIn(View(), wfds)
      requires rfds == ReadFds(View(), |relays|, |pool|) && wfds == WriteFds(View(), |relays|, |pool|)
      modifies this, events, events.events
      ensures Framed() && maxFd == old(maxFd)
      ensures var o := AfterSelect(old(View()), r);
              View() == o.net && sound == o.sound
              && events.posted == old(events.posted) + Events(o.posts) && events.taken == old(events.taken)
    {
      hide State.Ok, EventQueue.Valid, Clock.Valid, NoAcceptedIn, ReadFds, WriteFds, ServeAll;
      sound := true;
      NoPosts();
      if r.selectRet > 0 {
        NoAcceptedAmongFewer(View(), wfds, wfds * r.ready);
        sound := Serve(rfds * r.ready, wfds * r.ready, r);
      }
    }

    /** wish_message_processor_task: the core handles one event, read through the pointer before it posts any. */
    method ProcessEvent(slot: nat, script: seq<Action>) returns (ev: WishEvent)
      requires Valid() && slot < QUEUE_LEN
      modifies this, events, events.events
      ensures Valid() && maxFd == old(maxFd) && ev == old(events.View()).slots[slot]
      ensures View() == RunScript(old(View()), script)
      ensures events.posted == old(events.posted) + PostedBy(script) && events.taken == old(events.taken)
    {
      hide State.Ok, RunScript, Clock.Valid;
      ev := events.events[slot];
      CoreRun(script);
    }

    /**
     * The inner loop: events are handed to the core until none is left. A run of handlers posts
     * finitely many events, so the loop ends, with an empty ring.
     */
    method DrainEvents(handlers: seq<seq<Action>>) returns (handled: seq<WishEvent>)
      requires Valid()
      modifies this, events, events.events
      ensures Valid() && maxFd == old(maxFd) && View() == AfterHandlers(old(View()), handlers, |handled|).net
      ensures events.posted == old(events.posted) + PostedByFirst(handlers, |handled|)
      ensures events.taken == |events.posted| == old(events.taken) + |handled|
      ensures AllReadInTurn(events.posted, old(events.taken), |old(events.posted)|, handled, handlers)
    {
      hide State.Ok, Clock.Valid, EventQueue.Valid, AllReadInTurn, Drained, HandlerAt, Latest, RunScript, PostedBy;
      handled := [];
      ghost var n, posted0, taken0 := View(), events.posted, events.taken;
      NothingDrained(n, posted0, taken0, handlers);
      while true
        invariant Valid() && maxFd == old(maxFd)
        invariant Drained(n, posted0, taken0, handlers, handled, View(), events.posted, events.taken)
        decreases if |handled| < |handlers| then |handlers| - |handled| else 0, |events.posted| - events.taken
      {
        var slot := events.GetNextEvent();
        if slot.None? {
          break;
        }
        ghost var before, posted := View(), events.posted;
        var script := HandlerAt(handlers, |handled|);
        var ev := ProcessEvent(slot.value, script);
        OneMoreDrained(n, posted0, taken0, handlers, handled, before, posted, events.taken - 1, ev);
        LateHandlers(handlers, |handled|);
        handled := handled + [ev];
      }
      AllDrained(n, posted0, taken0, handlers, handled, View(), events.posted, events.taken);
    }

    /** From the time gates to the end of the round. */
    method RestOfRound(r: Round) returns (handled: seq<WishEvent>, fired: bool)
      requires Valid()
      modifies this, events, events.events, clock
      ensures Valid() && maxFd == old(maxFd)
      ensures var o := RestOutcome(old(View()), r, |handled|, fired);
              View() == o.net && events.posted == old(events.posted) + Events(o.posts)
      ensures var drained := old(events.posted) + PostedByFirst(r.handlers, |handled|);
              && events.taken == old(events.taken) + |handled| == |drained|
              && AllReadInTurn(drained, old(events.taken), |old(events.posted)|, handled, r.handlers)
      ensures clock.reportRounds == old(clock.reportRounds) + [r.secCnt]
      ensures clock.periodicRounds == old(clock.periodicRounds) + [r.secCnt]
      ensures fired <==> Fires(clock.periodicRounds, |old(clock.periodicRounds)|)
    {
      hide State.Ok, EventQueue.Valid, Clock.Valid, RunScript, AllReadInTurn, FailedOpens, StrayOpens, OpensOf;
      hide Fires, Reports, AfterHandlers, PostedByFirst, PostedBy, Events;
      var reported := clock.Report(r.secCnt);
      handled := DrainEvents(r.handlers);
      fired := clock.Periodic(r.secCnt);
      if fired {
        CoreRun(r.periodic);
      }
      CoreRun(r.ipc);
      RestPosts(old(View()), r, |handled|, fired);
    }

    /** One round of the endless loop, followed until it ends or loses track of a descriptor. */
    method OneRound(r: Round) returns (call: SelectCall, sound: bool, handled: seq<WishEvent>, fired: bool)
      requires Valid()
      modifies this, events, events.events, clock
      ensures Framed() && call.Sound() && call.nfds == maxFd >= old(maxFd)
      ensures call.rfds == ReadFds(old(View()), |old(relays)|, |old(pool)|)
      ensures call.wfds == WriteFds(old(View()), |old(relays)|, |old(pool)|)
      ensures var o := RoundOutcome(old(View()), r, |handled|, fired);
              && View() == o.net && sound == o.sound && Faithful(old(View()), o)
              && events.posted == old(events.posted) + Events(o.posts)
      ensures |Own(AfterSelect(old(View()), r).posts)| <= POOL_SIZE
      ensures var waiting := old(events.posted) + Events(AfterSelect(old(View()), r).posts);
              var drained := waiting + PostedByFirst(r.handlers, |handled|);
              if sound then
                && events.taken == old(events.taken) + |handled| == |drained|
                && AllReadInTurn(drained, old(events.taken), |waiting|, handled, r.handlers)
                && clock.reportRounds == old(clock.reportRounds) + [r.secCnt]
                && clock.periodicRounds == old(clock.periodicRounds) + [r.secCnt]
                && (fired <==> Fires(clock.periodicRounds, |old(clock.periodicRounds)|))
              else handled == [] && unchanged(clock)
    {
      hide State.Ok, EventQueue.Valid, Clock.Valid, NoAcceptedIn, RunScript, ReadFds, WriteFds, ServeAll, AllReadInTurn;
      hide Fires, Reports, AfterHandlers, PostedByFirst, PostedBy, Faithful, Events, Own, RestOutcome, AfterSelect;
      ghost var n := View();
      var rfds, wfds := BuildSets();
      call, sound, handled, fired := SelectCall(rfds, wfds, maxFd), true, [], false;
      AfterSelectFaithful(n, r);
      SoundIsOk(n, AfterSelect(n, r));
      sound := ServeReady(rfds, wfds, r);
      if sound {
        ghost var served := AfterSelect(n, r);
        handled, fired := RestOfRound(r);
        EventsThen(served.posts, RestOutcome(served.net, r, |handled|, fired).posts);
      }
      RoundFaithful(n, r, |handled|, fired);
    }

    /**
     * Any number of rounds, followed until they end or a descriptor is lost track of. Every select of
     * the run is given sound sets and a bound that never shrinks. The run as a whole is the rounds one
     * after the other, and what `Faithful` says holds of it: the invariants, exact books of lost
     * blocks and sockets, one announcement per read, and proper calls of recv and connect.
     */
    method MainLoop(rounds: seq<Round>) returns (calls: seq<SelectCall>, sound: bool, ghost trace: seq<Traced>)
      requires Valid()
      modifies this, events, events.events, clock
      ensures |calls| == |trace| <= |rounds| && (sound ==> |trace| == |rounds|)
      ensures forall k | 0 <= k < |trace| :: trace[k].r == rounds[k]
      ensures SoundCalls(calls, old(maxFd), maxFd)
      ensures Framed() && (View().Ok() <==> sound) && Chained(old(View()), trace)
      ensures var o := Total(old(View()), trace);
              && View() == o.net && sound == o.sound && Faithful(old(View()), o)
              && events.posted == old(events.posted) + Events(o.posts)
      ensures sound ==> clock.periodicRounds == old(clock.periodicRounds) + Seconds(rounds)
      ensures sound ==> clock.reportRounds == old(clock.reportRounds) + Seconds(rounds)
    {
      hide State.Ok, EventQueue.Valid, Clock.Valid, ReadFds, WriteFds, AfterSelect, RoundOutcome, AllReadInTurn, Leads;
      hide PostedByFirst, PostedBy, Fires, SelectCall.Sound, Faithful, Events, Own, SoundCalls, Seconds, Total, Chained;
      calls, sound, trace := [], true, [];
      ghost var n, posted := View(), [];
      LeadsNowhere(n);
      NoSelect(maxFd, rounds);
      while sound && |calls| < |rounds|
        invariant |calls| == |trace| <= |rounds| == |Seconds(rounds)|
        invariant forall j | 0 <= j < |trace| :: trace[j].r == rounds[j]
        invariant maxFd >= old(maxFd) && SoundCalls(calls, old(maxFd), maxFd)
        invariant Framed() && (View().Ok() <==> sound) && Leads(n, trace, View(), sound, posted)
        invariant events.posted == old(events.posted) + posted
        invariant sound ==> clock.periodicRounds == old(clock.periodicRounds) + Seconds(rounds)[..|calls|]
        invariant sound ==> clock.reportRounds == old(clock.reportRounds) + Seconds(rounds)[..|calls|]
        decreases |rounds| - |calls|
      {
        var r := rounds[|calls|];
        ghost var before, hi := View(), maxFd;
        var call, handled, fired;
        call, sound, handled, fired := OneRound(r);
        ghost var round := Traced(before, r, |handled|, fired);
        SoundIsOk(before, round.Outcome());
        LeadsOn(n, trace, before, posted, round);
        OneMoreSelect(calls, old(maxFd), hi, call);
        OneMoreSecond(rounds, |calls|, old(clock.periodicRounds));
        OneMoreSecond(rounds, |calls|, old(clock.reportRounds));
        calls, trace := calls + [call], trace + [round];
        posted := posted + Events(round.Outcome().posts);
      }
      LeadsSomewhere(n, trace, View(), sound, posted);
      RunFaithful(n, trace);
    }
  }
}
