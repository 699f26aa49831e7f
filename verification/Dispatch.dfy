/**
 * One round of the main loop as a function of the state, the descriptors that select
 * found ready, and what the socket layer and the core do meanwhile.
 *
 * Two things can make the program lose track of a descriptor: a failed accept whose
 * result is registered, and a number handed out anew between the two closes after a failed
 * connect. An outcome is `sound` when neither happened; it is followed no further when one
 * did.
 */
module Dispatch {
  import opened Bits
  import opened CText
  import opened CoreActions
  import opened EventRing
  import opened Net
  import opened Sockets

  const MAX_READ: nat := 512

  /** For one relay or connection: the result of connect or recv, and what the core does when told. */
  datatype Io = Io(ret: ConnectResult, recvLen: int, script: seq<Action>)

  /** For the server socket: what accept returned, the context the core granted, its send_arg's address. */
  datatype Incoming = Incoming(newSock: int, context: Option<nat>, addr: nat, script: seq<Action>)

  /** Everything the surroundings decide in one round of the loop. */
  datatype Round = Round(
    selectRet: int, ready: set<int>,
    discovered: seq<Action>, relayIo: nat -> Io, connIo: nat -> Io, incoming: Incoming,
    handlers: seq<seq<Action>>, periodic: seq<Action>, ipc: seq<Action>, secCnt: int)

  /** An event in the ring, and who posted it. */
  datatype Post = ByCore(ev: WishEvent) | ByPort(ev: WishEvent)

  /**
   * A recv for context i, with the bytes its buffer holds before, the length asked for and the
   * result; or a repeated connect, with the address given and the one the context was opened with.
   */
  datatype IoCall =
    | RecvCall(i: nat, used: nat, requested: nat, len: int)
    | ConnectCall(i: nat, address: Remote, target: Remote)
  {
    /** recv gets no more room than there is, and at most 512; connect gets the address of the open. */
    predicate Proper() {
      match this
      case RecvCall(_, used, requested, len) => requested <= MAX_READ && used + requested <= RX_SIZE && len <= requested
      case ConnectCall(_, address, target) => address == target && target != Unset
    }
  }

  /** State, events posted, calls made, connections opened, blocks and sockets lost, and whether all descriptors are still known. */
  datatype Outcome = Outcome(
    net: State, posts: seq<Post>, calls: seq<IoCall>, opens: seq<OpenedTo>, lostBlocks: nat, lostSockets: nat, sound: bool)
  {
    function Plus(next: Outcome): Outcome {
      Outcome(next.net, posts + next.posts, calls + next.calls, opens + next.opens,
              lostBlocks + next.lostBlocks, lostSockets + next.lostSockets, next.sound)
    }
  }

  function Quiet(n: State): Outcome {
    Outcome(n, [], [], [], 0, 0, true)
  }

  /** The core is told something and reacts. */
  function Told(n: State, script: seq<Action>): Outcome {
    Outcome(RunScript(n, script), CorePosts(PostedBy(script)), [], OpensOf(n, script),
            FailedOpens(n, script), StrayOpens(n, script), true)
  }

  // ----- Posts

  function CorePosts(evs: seq<WishEvent>): (ps: seq<Post>)
    ensures |ps| == |evs|
  {
    seq(|evs|, k requires 0 <= k < |evs| => ByCore(evs[k]))
  }

  /** What the posts put into the ring. */
  function Events(ps: seq<Post>): (evs: seq<WishEvent>)
    ensures |evs| == |ps|
  {
    seq(|ps|, k requires 0 <= k < |ps| => ps[k].ev)
  }

  /** Those that the port posted itself. */
  function Own(ps: seq<Post>): seq<WishEvent> {
    if ps == [] then []
    else Own(ps[..|ps| - 1]) + (if ps[|ps| - 1].ByPort? then [ps[|ps| - 1].ev] else [])
  }

  /** One announcement of new data for each successful read. */
  function Announced(cs: seq<IoCall>): seq<WishEvent> {
    if cs == [] then []
    else
      var c := cs[|cs| - 1];
      Announced(cs[..|cs| - 1]) + (if c.RecvCall? && c.len > 0 then [WishEvent(NewData, c.i)] else [])
  }

  lemma EventsThen(a: seq<Post>, b: seq<Post>)
    ensures Events(a + b) == Events(a) + Events(b)
  {
  }

  lemma EventsOfCore(evs: seq<WishEvent>)
    ensures Events(CorePosts(evs)) == evs
  {
  }

  lemma NoPosts()
    ensures Events([]) == [] && CorePosts([]) == []
  {
  }

  lemma {:induction false} OwnThen(a: seq<Post>, b: seq<Post>)
    ensures Own(a + b) == Own(a) + Own(b)
  {
    if b == [] {
      assert a + b == a;
    } else {
      assert (a + b)[..|a + b| - 1] == a + b[..|b| - 1];
      OwnThen(a, b[..|b| - 1]);
    }
  }

  lemma {:induction false} OwnOfCore(evs: seq<WishEvent>)
    ensures Own(CorePosts(evs)) == []
  {
    if evs != [] {
      assert CorePosts(evs)[..|evs| - 1] == CorePosts(evs[..|evs| - 1]);
      OwnOfCore(evs[..|evs| - 1]);
    }
  }

  lemma {:induction false} AnnouncedThen(a: seq<IoCall>, b: seq<IoCall>)
    ensures Announced(a + b) == Announced(a) + Announced(b)
  {
    if b == [] {
      assert a + b == a;
    } else {
      assert (a + b)[..|a + b| - 1] == a + b[..|b| - 1];
      AnnouncedThen(a, b[..|b| - 1]);
    }
  }

  // ----- One context

  /** wish_core_feed has taken k bytes for context i. */
  function Feed(n: State, i: nat, k: nat): State
    requires i < |n.pool|
  {
    n.SetContext(i, n.pool[i].(rxUsed := n.pool[i].rxUsed + k))
  }

  /** How much the loop asks recv for: what is free, at most 512. */
  function Request(used: nat): nat {
    if RX_SIZE - used > MAX_READ then MAX_READ else if used > RX_SIZE then 0 else RX_SIZE - used
  }

  /** recv never returns more than it was asked for. */
  function ReadLen(requested: nat, io: Io): int {
    if io.recvLen > requested then requested else io.recvLen
  }

  /** What a look at a context comes to. */
  datatype Service = Untouched | Received(len: nat) | PeerClosed | ReadFailed | Connected | Inconsistent | ConnectFailed

  function ServiceOf(n: State, i: nat, rf: set<int>, wf: set<int>, io: Io): (s: Service)
    ensures s != Untouched ==> n.Live(i) && n.ArgOk(i)
  {
    if !n.Live(i) || !n.ArgOk(i) then Untouched
    else
      var fd, c := n.FdOf(i), n.pool[i];
      if fd in rf then
        var len := ReadLen(Request(c.rxUsed), io);
        if c.rxUsed == RX_SIZE then Untouched
        else if len > 0 then Received(len)
        else if len == 0 then PeerClosed
        else ReadFailed
      else if fd in wf then
        if io.ret == Zero || io.ret == Positive then
          if c.transport == Connecting then Connected else Inconsistent
        else ConnectFailed
      else Untouched
  }

  /** The state in which the core is told. */
  function BeforeCore(n: State, i: nat, s: Service): State
    requires s != Untouched ==> n.Live(i) && n.ArgOk(i)
  {
    match s
    case Received(len) => Feed(n, i, len)
    case PeerClosed => n.Drop(i)
    case ConnectFailed => n.Drop(i)
    case _ => n
  }

  function ReadCall(n: State, i: nat, io: Io): IoCall
    requires i < |n.pool|
  {
    var used := n.pool[i].rxUsed;
    RecvCall(i, used, Request(used), ReadLen(Request(used), io))
  }

  function RetryCall(n: State, i: nat): IoCall
    requires n.Live(i) && n.ArgOk(i)
  {
    ConnectCall(i, n.heap[n.pool[i].sendArg.value].remote, if i < |n.targets| then n.targets[i] else Unset)
  }

  function ServeConn(n: State, i: nat, rf: set<int>, wf: set<int>, io: Io): Outcome {
    var s := ServiceOf(n, i, rf, wf, io);
    match s
    case Untouched => Quiet(n)
    case Received(_) =>
      var o := Told(BeforeCore(n, i, s), io.script);
      o.(posts := o.posts + [ByPort(WishEvent(NewData, i))], calls := [ReadCall(n, i, io)])
    case PeerClosed => Told(BeforeCore(n, i, s), io.script).(calls := [ReadCall(n, i, io)])
    case ReadFailed => Quiet(n).(calls := [ReadCall(n, i, io)])
    case Connected => Told(n, io.script).(calls := [RetryCall(n, i)])
    case Inconsistent => Quiet(n).(calls := [RetryCall(n, i)])
    case ConnectFailed =>
      var o := Told(BeforeCore(n, i, s), io.script);
      o.(net := CloseAgain(o.net, n.FdOf(i)), calls := [RetryCall(n, i)], sound := n.FdOf(i) !in o.net.openFds)
  }

  /** The call made for context i, given what recv was asked for or where connect was sent. */
  function CallsOf(n: State, i: nat, io: Io, requested: Option<nat>, retried: Option<Remote>): seq<IoCall>
    requires i < |n.pool|
  {
    if requested.Some? then [RecvCall(i, n.pool[i].rxUsed, requested.value, ReadLen(requested.value, io))]
    else if retried.Some? then [ConnectCall(i, retried.value, if i < |n.targets| then n.targets[i] else Unset)]
    else []
  }

  lemma UntouchedServes(n: State, i: nat, rf: set<int>, wf: set<int>, io: Io)
    requires i < |n.pool|
    ensures ServiceOf(n, i, rf, wf, io) == Untouched ==> ServeConn(n, i, rf, wf, io) == Quiet(n)
    ensures CallsOf(n, i, io, None, None) == [] && Events([]) == []
  {
    hide RunScript, FailedOpens, StrayOpens, OpensOf, PostedBy;
  }

  // ----- One relay, the server socket, and a whole pass

  function ServeRelay(n: State, j: nat, rf: set<int>, wf: set<int>, io: Io): Outcome {
    if j >= |n.relays| then Quiet(n)
    else
      var r := n.relays[j];
      if r.state == RelayConnecting && r.sockFd != -1 && r.sockFd in wf then
        if io.ret == Zero || io.ret == Positive then Told(n, io.script)
        else if io.ret == Already then Quiet(n)
        else Quiet(n.DropRelay(j))
      else if r.state == WaitReconnect || r.state == Resolving then Quiet(n)
      else if r.state != Initial && r.sockFd != -1 && r.sockFd in rf then
        var len := ReadLen(1, io);
        if len > 0 then Told(n, io.script)
        else if len == 0 then Quiet(n.DropRelay(j))
        else Quiet(n)
      else Quiet(n)
  }

  /** What accept may return: a failure, or a descriptor that was not open. */
  predicate Acceptable(pool: seq<Context>, heap: map<nat, SendArg>, openFds: set<int>, a: Incoming) {
    NewSocket(openFds, a.newSock)
    && (a.context.Some? ==> a.context.value < |pool| && pool[a.context.value].state == Free && a.addr !in heap)
  }

  /** Without a context the new socket is closed at once; with one it is registered, whatever accept returned. */
  function ServeServer(n: State, rf: set<int>, a: Incoming): Outcome {
    if n.fixed.server !in rf || !Acceptable(n.pool, n.heap, n.openFds, a) || a.context.None? then Quiet(n)
    else
      var m := Accepted(n, a.context.value, a.addr, a.newSock);
      if a.newSock >= 0 then Told(m, a.script) else Quiet(m).(sound := false)
  }

  /** The first k relays, in order. */
  function ServeRelays(n: State, k: nat, rf: set<int>, wf: set<int>, io: nat -> Io): Outcome {
    if k == 0 then Quiet(n)
    else
      var o := ServeRelays(n, k - 1, rf, wf, io);
      o.Plus(ServeRelay(o.net, k - 1, rf, wf, io(k - 1)))
  }

  /** The first k contexts, in order. */
  function ServeConns(n: State, k: nat, rf: set<int>, wf: set<int>, io: nat -> Io): Outcome {
    if k == 0 then Quiet(n)
    else
      var o := ServeConns(n, k - 1, rf, wf, io);
      if o.sound then o.Plus(ServeConn(o.net, k - 1, rf, wf, io(k - 1))) else o
  }

  function ServeDiscovery(n: State, rf: set<int>, r: Round): Outcome {
    if n.fixed.discovery in rf then Told(n, r.discovered) else Quiet(n)
  }

  /** One pass over everything that is ready: discovery, relays, connections, then the server socket. */
  function ServeAll(n: State, rf: set<int>, wf: set<int>, r: Round): Outcome {
    var discovery := ServeDiscovery(n, rf, r);
    var relays := discovery.Plus(ServeRelays(discovery.net, |n.relays|, rf, wf, r.relayIo));
    var conns := relays.Plus(ServeConns(relays.net, POOL_SIZE, rf, wf, r.connIo));
    if conns.sound then conns.Plus(ServeServer(conns.net, rf, r.incoming)) else conns
  }

  /** What select leads to: a pass over what is ready, unless it timed out or failed. */
  function AfterSelect(n: State, r: Round): Outcome {
    if r.selectRet > 0 then
      ServeAll(n, ReadFds(n, |n.relays|, |n.pool|) * r.ready, WriteFds(n, |n.relays|, |n.pool|) * r.ready, r)
    else Quiet(n)
  }

  function HandlerAt(handlers: seq<seq<Action>>, k: nat): seq<Action> {
    if k < |handlers| then handlers[k] else []
  }

  /** The first k handler calls of a drain; handlers beyond the list do nothing. */
  function AfterHandlers(n: State, handlers: seq<seq<Action>>, k: nat): (o: Outcome)
    ensures o.sound && o.calls == []
  {
    if k == 0 then Quiet(n)
    else
      var o := AfterHandlers(n, handlers, k - 1);
      o.Plus(Told(o.net, HandlerAt(handlers, k - 1)))
  }

  /** After the sockets: the drain of k events, the once-a-second work if `fired`, the IPC task. */
  function RestOutcome(n: State, r: Round, k: nat, fired: bool): (o: Outcome)
    ensures o.sound
  {
    var drained := AfterHandlers(n, r.handlers, k);
    var worked := if fired then drained.Plus(Told(drained.net, r.periodic)) else drained;
    worked.Plus(Told(worked.net, r.ipc))
  }

  /** A whole round. */
  function RoundOutcome(n: State, r: Round, k: nat, fired: bool): Outcome {
    var served := AfterSelect(n, r);
    if served.sound then served.Plus(RestOutcome(served.net, r, k, fired)) else served
  }

  // ----- What holds of every outcome

  /**
   * The invariants hold exactly when the outcome is sound; the books grew by exactly what was lost;
   * the port posted one announcement for each successful read, in order; every call was proper; and
   * what each context is meant to connect to is the address of its last open.
   */
  ghost predicate Faithful(n: State, o: Outcome) {
    && (o.net.Ok() <==> o.sound)
    && Lost(n, o.net, o.lostBlocks, o.lostSockets)
    && Own(o.posts) == Announced(o.calls)
    && o.net.targets == Retarget(n.targets, o.opens)
    && forall k | 0 <= k < |o.calls| :: o.calls[k].Proper()
  }

  /** Nothing was lost, and no connection opened. */
  ghost predicate Still(n: State, m: State) {
    Lost(n, m, 0, 0) && m.targets == n.targets
  }

  /** No accepted connection is taken for a connecting one. */
  ghost predicate Serving(n: State, wf: set<int>) {
    n.Ok() && NoAcceptedIn(n, wf)
  }

  lemma {:induction false} PlusFaithful(n: State, o: Outcome, next: Outcome)
    requires Faithful(n, o) && Faithful(o.net, next)
    ensures Faithful(n, o.Plus(next))
  {
    hide State.Ok, Lost, Own, Announced, Retarget, IoCall.Proper;
    RetargetThen(n.targets, o.opens, next.opens);
    LostThen(n, o.net, next.net, o.lostBlocks, o.lostSockets, next.lostBlocks, next.lostSockets);
    OwnThen(o.posts, next.posts);
    AnnouncedThen(o.calls, next.calls);
  }

  lemma {:induction false} QuietFaithful(n: State, m: State)
    requires m.Ok() && Still(n, m)
    ensures Faithful(n, Quiet(m))
  {
    hide State.Ok, Lost;
  }

  lemma {:induction false} ToldFaithful(n: State, m: State, script: seq<Action>)
    requires m.Ok() && Still(n, m)
    ensures Faithful(n, Told(m, script))
  {
    hide State.Ok, Lost, RunScript, FailedOpens, StrayOpens, OpensOf, PostedBy, Retarget;
    RunOk(m, script);
    RunTargets(m, script);
    RunAccounts(m, script);
    LostThen(n, m, RunScript(m, script), 0, 0, FailedOpens(m, script), StrayOpens(m, script));
    OwnOfCore(PostedBy(script));
  }

  lemma {:induction false} ToldServing(n: State, script: seq<Action>, wf: set<int>)
    requires Serving(n, wf)
    ensures Serving(RunScript(n, script), wf)
  {
    hide State.Ok;
    RunOk(n, script);
    RunKeepsNoAccepted(n, script, wf);
  }

  // ----- One context

  lemma {:induction false} BufferHasRoom(n: State, i: nat)
    requires n.Ok() && n.Live(i)
    ensures var used := n.pool[i].rxUsed;
            used <= RX_SIZE && used + Request(used) <= RX_SIZE && Request(used) <= MAX_READ
  {
  }

  lemma {:induction false} FeedServing(n: State, i: nat, k: nat, wf: set<int>)
    requires Serving(n, wf) && n.Live(i) && n.pool[i].rxUsed + k <= RX_SIZE
    ensures Serving(Feed(n, i, k), wf)
  {
    hide State.MemoryOk, State.SocketsOk, State.RelaysOk;
    SetContextOk(n, i, n.pool[i].(rxUsed := n.pool[i].rxUsed + k));
  }

  lemma {:induction false} DropServing(n: State, i: nat, wf: set<int>)
    requires Serving(n, wf) && n.Live(i)
    ensures n.ArgOk(i) && Serving(n.Drop(i), wf) && n.FdOf(i) !in n.Drop(i).openFds && n.FdOf(i) >= 0
  {
    hide State.TargetsOk, State.BuffersOk, State.RelaysOk;
    DropOk(n, i);
  }

  lemma {:induction false} BeforeCoreServing(n: State, i: nat, rf: set<int>, wf: set<int>, io: Io)
    requires Serving(n, wf)
    ensures Serving(BeforeCore(n, i, ServiceOf(n, i, rf, wf, io)), wf)
    ensures Still(n, BeforeCore(n, i, ServiceOf(n, i, rf, wf, io)))
  {
    hide State.Ok, NoAcceptedIn;
    var s := ServiceOf(n, i, rf, wf, io);
    match s {
      case Received(len) => BufferHasRoom(n, i); FeedServing(n, i, len, wf);
      case PeerClosed => DropServing(n, i, wf);
      case ConnectFailed => DropServing(n, i, wf);
      case _ =>
    }
  }

  /**
   * Before the core is told, whatever it does then, serving context i touches only that context: a
   * read adds exactly the bytes received to its buffer, an ended connection gives back exactly
   * its block and its socket, and everything else leaves the state alone.
   */
  lemma {:induction false} BeforeCoreTouchesOnlyIts(n: State, i: nat, rf: set<int>, wf: set<int>, io: Io)
    requires n.Ok()
    ensures var s := ServiceOf(n, i, rf, wf, io);
            var m := BeforeCore(n, i, s);
            && |m.pool| == |n.pool| && (forall k | 0 <= k < |n.pool| && k != i :: m.pool[k] == n.pool[k])
            && m.relays == n.relays && m.leaked == n.leaked && m.stray == n.stray
            && (s == Untouched || s == ReadFailed || s == Connected || s == Inconsistent ==> m == n)
            && (s.Received? ==> m.heap == n.heap && m.openFds == n.openFds
                                && m.pool[i] == n.pool[i].(rxUsed := n.pool[i].rxUsed + s.len)
                                && 1 <= s.len <= MAX_READ && m.pool[i].rxUsed <= RX_SIZE)
            && (s == PeerClosed || s == ConnectFailed ==>
                  m.pool[i].state == Free && m.heap == n.heap - {n.pool[i].sendArg.value}
                  && m.openFds == n.openFds - {n.FdOf(i)} && n.FdOf(i) in n.openFds)
  {
    hide State.TargetsOk, State.RelaysOk;
    if n.Live(i) {
      LiveFd(n, i);
      BufferHasRoom(n, i);
    }
  }

  /**
   * For every reaction of the core: a read is fed once and announced once, after everything the core
   * posts while it is fed; no other service posts anything of its own.
   */
  lemma {:induction false} ServeConnFeedsOnce(n: State, i: nat, rf: set<int>, wf: set<int>, io: Io)
    requires n.Ok()
    ensures var s, o := ServiceOf(n, i, rf, wf, io), ServeConn(n, i, rf, wf, io);
            && (s.Received? <==> n.Live(i) && n.FdOf(i) in rf && n.pool[i].rxUsed < RX_SIZE && io.recvLen > 0)
            && (s.Received? ==>
                  s.len == ReadLen(Request(n.pool[i].rxUsed), io)
                  && o.net == RunScript(Feed(n, i, s.len), io.script)
                  && Events(o.posts) == PostedBy(io.script) + [WishEvent(NewData, i)]
                  && Own(o.posts) == [WishEvent(NewData, i)])
            && (!s.Received? ==> Own(o.posts) == [] && (Events(o.posts) == PostedBy(io.script) || Events(o.posts) == []))
  {
    hide State.MemoryOk, State.SocketsOk, State.TargetsOk, State.RelaysOk, RunScript, PostedBy, FailedOpens, StrayOpens, OpensOf, Own;
    if n.Live(i) {
      LiveFd(n, i);
      BufferHasRoom(n, i);
    }
    OwnOfOne(PostedBy(io.script), WishEvent(NewData, i));
    EventsOfCore(PostedBy(io.script));
    OwnOfCore(PostedBy(io.script));
    OwnOfCore([]);
    assert CorePosts([]) == [];
  }

  lemma {:induction false} OwnOfOne(evs: seq<WishEvent>, ev: WishEvent)
    ensures Own(CorePosts(evs) + [ByPort(ev)]) == [ev]
    ensures Events(CorePosts(evs) + [ByPort(ev)]) == evs + [ev]
  {
    OwnThen(CorePosts(evs), [ByPort(ev)]);
    OwnOfCore(evs);
    assert [ByPort(ev)][..0] == [];
  }

  lemma ToldThenOwn(n: State, o: Outcome, i: nat, call: IoCall)
    requires Faithful(n, o) && o.calls == [] && call.Proper() && call.RecvCall? && call.len > 0 && call.i == i
    ensures Faithful(n, o.(posts := o.posts + [ByPort(WishEvent(NewData, i))], calls := [call]))
  {
    hide State.Ok, Lost, IoCall.Proper;
    OwnThen(o.posts, [ByPort(WishEvent(NewData, i))]);
    assert [ByPort(WishEvent(NewData, i))][..0] == [] && [call][..0] == [];
  }

  /** A call that announces nothing may be noted without a post. */
  lemma NoteCall(n: State, o: Outcome, call: IoCall)
    requires Faithful(n, o) && o.calls == [] && call.Proper() && (call.RecvCall? ==> call.len <= 0)
    ensures Faithful(n, o.(calls := [call]))
  {
    hide State.Ok, Lost, IoCall.Proper;
    assert [call][..0] == [];
  }

  lemma {:induction false} CallsProper(n: State, i: nat, rf: set<int>, wf: set<int>, io: Io)
    requires Serving(n, wf)
    ensures var s := ServiceOf(n, i, rf, wf, io);
            && (s.Received? || s == PeerClosed || s == ReadFailed ==>
                  ReadCall(n, i, io).Proper() && (ReadCall(n, i, io).len > 0 <==> s.Received?))
            && (s == Connected || s == Inconsistent || s == ConnectFailed ==> RetryCall(n, i).Proper())
  {
    hide State.Ok, NoAcceptedIn;
    var s := ServiceOf(n, i, rf, wf, io);
    if s != Untouched {
      BufferHasRoom(n, i);
      LiveFd(n, i);
      if n.FdOf(i) in wf {
        RetryAddress(n, i, wf);
        TargetsCover(n);
      }
    }
  }

  lemma TargetsCover(n: State)
    requires n.Ok()
    ensures |n.targets| == |n.pool|
  {
  }

  /** A failed connect: closed, told, closed again. */
  lemma {:induction false} ConnectFailedFaithful(n: State, i: nat, script: seq<Action>, wf: set<int>)
    requires Serving(n, wf) && n.Live(i)
    ensures n.ArgOk(i)
    ensures var o, fd := Told(n.Drop(i), script), n.FdOf(i);
            var t := o.(net := CloseAgain(o.net, fd), sound := fd !in o.net.openFds);
            Faithful(n, t) && (t.sound ==> Serving(t.net, wf))
  {
    hide State.Ok, NoAcceptedIn, RunScript, FailedOpens, StrayOpens, OpensOf, PostedBy, Own;
    DropServing(n, i, wf);
    var m, fd := n.Drop(i), n.FdOf(i);
    ToldFaithful(n, m, script);
    ToldServing(m, script, wf);
    CloseAgainOk(RunScript(m, script), fd);
  }

  lemma {:induction false} ServeConnFaithful(n: State, i: nat, rf: set<int>, wf: set<int>, io: Io)
    requires Serving(n, wf)
    ensures var o := ServeConn(n, i, rf, wf, io); Faithful(n, o) && (o.sound ==> Serving(o.net, wf))
  {
    hide State.Ok, NoAcceptedIn, RunScript, FailedOpens, StrayOpens, OpensOf, PostedBy, Lost, Faithful, IoCall.Proper, CorePosts;
    var s := ServiceOf(n, i, rf, wf, io);
    BeforeCoreServing(n, i, rf, wf, io);
    CallsProper(n, i, rf, wf, io);
    var m := BeforeCore(n, i, s);
    NothingDone(n);
    match s {
      case Untouched =>
        QuietFaithful(n, n);
      case Received(_) =>
        ToldFaithful(n, m, io.script);
        ToldServing(m, io.script, wf);
        ToldThenOwn(n, Told(m, io.script), i, ReadCall(n, i, io));
      case PeerClosed =>
        ToldFaithful(n, m, io.script);
        ToldServing(m, io.script, wf);
        NoteCall(n, Told(m, io.script), ReadCall(n, i, io));
      case ReadFailed =>
        QuietFaithful(n, n);
        NoteCall(n, Quiet(n), ReadCall(n, i, io));
      case Connected =>
        ToldFaithful(n, n, io.script);
        ToldServing(n, io.script, wf);
        NoteCall(n, Told(n, io.script), RetryCall(n, i));
      case Inconsistent =>
        QuietFaithful(n, n);
        NoteCall(n, Quiet(n), RetryCall(n, i));
      case ConnectFailed =>
        ConnectFailedFaithful(n, i, io.script, wf);
        var o := Told(m, io.script);
        NoteCall(n, o.(net := CloseAgain(o.net, n.FdOf(i)), sound := n.FdOf(i) !in o.net.openFds), RetryCall(n, i));
    }
  }

  lemma NothingDone(n: State)
    ensures Still(n, n)
  {
  }

  // ----- One relay and the server socket

  lemma {:induction false} DropRelayServing(n: State, j: nat, wf: set<int>)
    requires Serving(n, wf) && j < |n.relays| && n.relays[j].HasSocket()
    ensures Serving(n.DropRelay(j), wf) && Still(n, n.DropRelay(j))
  {
    hide State.MemoryOk, State.SocketsOk, State.TargetsOk, State.BuffersOk, State.RelaysOk;
    DropRelayOk(n, j);
  }

  lemma {:induction false} NotOpening(n: State, j: nat)
    requires n.Ok() && j < |n.relays|
    ensures n.relays[j].state != Opening
  {
  }

  lemma {:induction false} ServeRelayFaithful(n: State, j: nat, rf: set<int>, wf: set<int>, io: Io)
    requires Serving(n, wf)
    ensures var o := ServeRelay(n, j, rf, wf, io); Faithful(n, o) && o.sound && Serving(o.net, wf)
  {
    hide State.Ok, NoAcceptedIn, RunScript, FailedOpens, StrayOpens, OpensOf, PostedBy, Lost, Faithful;
    NothingDone(n);
    QuietFaithful(n, n);
    ToldFaithful(n, n, io.script);
    ToldServing(n, io.script, wf);
    if j < |n.relays| {
      NotOpening(n, j);
      if n.relays[j].HasSocket() {
        DropRelayServing(n, j, wf);
        QuietFaithful(n, n.DropRelay(j));
      }
    }
  }

  lemma AcceptedStill(n: State, i: nat, addr: nat, newSock: int)
    requires i < |n.pool|
    ensures Still(n, Accepted(n, i, addr, newSock))
  {
  }

  /** A served accept is sound exactly when no failure was registered. */
  lemma {:induction false} ServeServerFaithful(n: State, rf: set<int>, a: Incoming)
    requires n.Ok()
    ensures Faithful(n, ServeServer(n, rf, a))
    ensures ServeServer(n, rf, a).sound <==>
            a.newSock >= 0 || a.context.None? || n.fixed.server !in rf || !Acceptable(n.pool, n.heap, n.openFds, a)
  {
    hide State.Ok, RunScript, FailedOpens, StrayOpens, OpensOf, PostedBy, Lost, Accepted;
    NothingDone(n);
    QuietFaithful(n, n);
    if n.fixed.server in rf && Acceptable(n.pool, n.heap, n.openFds, a) && a.context.Some? {
      var m := Accepted(n, a.context.value, a.addr, a.newSock);
      AcceptExact(n, a.context.value, a.addr, a.newSock);
      AcceptedStill(n, a.context.value, a.addr, a.newSock);
      if a.newSock >= 0 {
        ToldFaithful(n, m, a.script);
      }
    }
  }

  // ----- Passes and rounds

  lemma {:induction false} ServeRelaysFaithful(n: State, k: nat, rf: set<int>, wf: set<int>, io: nat -> Io)
    requires Serving(n, wf)
    ensures var o := ServeRelays(n, k, rf, wf, io); Faithful(n, o) && o.sound && Serving(o.net, wf)
  {
    hide Serving, ServeRelay, Faithful;
    if k > 0 {
      ServeRelaysFaithful(n, k - 1, rf, wf, io);
      var o := ServeRelays(n, k - 1, rf, wf, io);
      ServeRelayFaithful(o.net, k - 1, rf, wf, io(k - 1));
      PlusFaithful(n, o, ServeRelay(o.net, k - 1, rf, wf, io(k - 1)));
    } else {
      ServingQuiet(n, wf);
    }
  }

  lemma ServingQuiet(n: State, wf: set<int>)
    requires Serving(n, wf)
    ensures Faithful(n, Quiet(n)) && n.Ok()
  {
    hide State.Ok;
  }

  lemma {:induction false} ServeConnsFaithful(n: State, k: nat, rf: set<int>, wf: set<int>, io: nat -> Io)
    requires Serving(n, wf)
    ensures var o := ServeConns(n, k, rf, wf, io); Faithful(n, o) && (o.sound ==> Serving(o.net, wf)) && |o.calls| <= k
  {
    hide Serving, ServeConn, Faithful;
    if k > 0 {
      ServeConnsFaithful(n, k - 1, rf, wf, io);
      var o := ServeConns(n, k - 1, rf, wf, io);
      if o.sound {
        ServeConnFaithful(o.net, k - 1, rf, wf, io(k - 1));
        OneCallEach(o.net, k - 1, rf, wf, io(k - 1));
        PlusFaithful(n, o, ServeConn(o.net, k - 1, rf, wf, io(k - 1)));
      }
    } else {
      ServingQuiet(n, wf);
    }
  }

  lemma {:induction false} OneCallEach(n: State, i: nat, rf: set<int>, wf: set<int>, io: Io)
    ensures |ServeConn(n, i, rf, wf, io).calls| <= 1
  {
    hide RunScript, FailedOpens, StrayOpens, OpensOf, PostedBy;
  }

  lemma {:induction false} DiscoveryFaithful(n: State, rf: set<int>, wf: set<int>, r: Round)
    requires Serving(n, wf)
    ensures var o := ServeDiscovery(n, rf, r); Faithful(n, o) && o.sound && o.calls == [] && Serving(o.net, wf)
  {
    hide State.Ok, NoAcceptedIn, RunScript, FailedOpens, StrayOpens, OpensOf, PostedBy, Lost, Faithful;
    NothingDone(n);
    QuietFaithful(n, n);
    ToldFaithful(n, n, r.discovered);
    ToldServing(n, r.discovered, wf);
  }

  lemma {:induction false} RelaysMakeNoCalls(n: State, k: nat, rf: set<int>, wf: set<int>, io: nat -> Io)
    ensures ServeRelays(n, k, rf, wf, io).calls == []
  {
    if k > 0 {
      RelaysMakeNoCalls(n, k - 1, rf, wf, io);
    }
  }

  /** A pass makes at most four calls, so it announces at most four reads. */
  lemma {:induction false} ServeAllFaithful(n: State, rf: set<int>, wf: set<int>, r: Round)
    requires Serving(n, wf)
    ensures var o := ServeAll(n, rf, wf, r);
            Faithful(n, o) && |o.calls| <= POOL_SIZE && |Own(o.posts)| <= POOL_SIZE
  {
    hide Serving, ServeServer, ServeRelays, ServeConns, ServeDiscovery, Faithful, Own;
    var discovery := ServeDiscovery(n, rf, r);
    DiscoveryFaithful(n, rf, wf, r);
    var o := ServeRelays(discovery.net, |n.relays|, rf, wf, r.relayIo);
    ServeRelaysFaithful(discovery.net, |n.relays|, rf, wf, r.relayIo);
    RelaysMakeNoCalls(discovery.net, |n.relays|, rf, wf, r.relayIo);
    PlusFaithful(n, discovery, o);
    var relays := discovery.Plus(o);
    var p := ServeConns(relays.net, POOL_SIZE, rf, wf, r.connIo);
    ServeConnsFaithful(relays.net, POOL_SIZE, rf, wf, r.connIo);
    PlusFaithful(n, relays, p);
    var conns := relays.Plus(p);
    if conns.sound {
      ServingQuiet(conns.net, wf);
      ServeServerFaithful(conns.net, rf, r.incoming);
      ServerMakesNoCall(conns.net, rf, r.incoming);
      PlusFaithful(n, conns, ServeServer(conns.net, rf, r.incoming));
    }
    OwnAtMostCalls(n, ServeAll(n, rf, wf, r));
  }

  lemma ServerMakesNoCall(n: State, rf: set<int>, a: Incoming)
    ensures ServeServer(n, rf, a).calls == []
  {
  }

  lemma OwnAtMostCalls(n: State, o: Outcome)
    requires Faithful(n, o)
    ensures |Own(o.posts)| <= |o.calls|
  {
    AnnouncedAtMost(o.calls);
  }

  lemma {:induction false} AnnouncedAtMost(cs: seq<IoCall>)
    ensures |Announced(cs)| <= |cs|
  {
    if cs != [] {
      AnnouncedAtMost(cs[..|cs| - 1]);
    }
  }

  lemma {:induction false} AfterSelectFaithful(n: State, r: Round)
    requires n.Ok()
    ensures Faithful(n, AfterSelect(n, r)) && |Own(AfterSelect(n, r).posts)| <= POOL_SIZE
  {
    hide State.Ok, ServeAll, ReadFds, WriteFds, Faithful, NoAcceptedIn;
    SelectSetsOk(n);
    var wfds := WriteFds(n, |n.relays|, |n.pool|);
    NoAcceptedAmongFewer(n, wfds, wfds * r.ready);
    ServeAllFaithful(n, ReadFds(n, |n.relays|, |n.pool|) * r.ready, wfds * r.ready, r);
    ServingQuiet(n, wfds);
  }

  lemma NoAcceptedAmongFewer(n: State, fds: set<int>, fewer: set<int>)
    requires NoAcceptedIn(n, fds) && fewer <= fds
    ensures NoAcceptedIn(n, fewer)
  {
  }

  lemma {:induction false} AfterHandlersFaithful(n: State, handlers: seq<seq<Action>>, k: nat)
    requires n.Ok()
    ensures Faithful(n, AfterHandlers(n, handlers, k)) && AfterHandlers(n, handlers, k).net.Ok()
  {
    hide State.Ok, Faithful, Told;
    NothingDone(n);
    QuietFaithful(n, n);
    if k > 0 {
      AfterHandlersFaithful(n, handlers, k - 1);
      var o := AfterHandlers(n, handlers, k - 1);
      CoreTold(o.net, HandlerAt(handlers, k - 1));
      PlusFaithful(n, o, Told(o.net, HandlerAt(handlers, k - 1)));
    }
  }

  lemma CoreTold(n: State, script: seq<Action>)
    requires n.Ok()
    ensures Faithful(n, Told(n, script)) && Told(n, script).net.Ok()
  {
    hide State.Ok, Faithful;
    NothingDone(n);
    RunOk(n, script);
    ToldFaithful(n, n, script);
  }

  /**
   * Over a whole round, everything the core does in it included: the invariants hold exactly when no
   * descriptor was lost track of, the books grew by exactly what the round lost, each successful read
   * was announced once, and every recv and every retry was proper.
   */
  lemma {:induction false} RoundFaithful(n: State, r: Round, k: nat, fired: bool)
    requires n.Ok()
    ensures Faithful(n, RoundOutcome(n, r, k, fired))
  {
    hide State.Ok, AfterSelect, RestOutcome, Faithful;
    AfterSelectFaithful(n, r);
    var served := AfterSelect(n, r);
    if served.sound {
      SoundIsOk(n, served);
      RestFaithful(served.net, r, k, fired);
      PlusFaithful(n, served, RestOutcome(served.net, r, k, fired));
    }
  }

  lemma {:induction false} RestFaithful(n: State, r: Round, k: nat, fired: bool)
    requires n.Ok()
    ensures var o := RestOutcome(n, r, k, fired); Faithful(n, o) && o.sound && o.net.Ok()
  {
    hide State.Ok, AfterHandlers, Faithful, RunScript, FailedOpens, StrayOpens, OpensOf, PostedBy;
    var drained := AfterHandlers(n, r.handlers, k);
    AfterHandlersFaithful(n, r.handlers, k);
    CoreTold(drained.net, r.periodic);
    PlusFaithful(n, drained, Told(drained.net, r.periodic));
    var worked := if fired then drained.Plus(Told(drained.net, r.periodic)) else drained;
    CoreTold(worked.net, r.ipc);
    PlusFaithful(n, worked, Told(worked.net, r.ipc));
  }

  lemma SoundIsOk(n: State, o: Outcome)
    requires Faithful(n, o)
    ensures o.net.Ok() <==> o.sound
  {
    hide State.Ok;
  }

  /** Serving a context is sound unless its connect failed and its number was handed out anew and kept. */
  lemma {:induction false} ServeConnSound(n: State, i: nat, rf: set<int>, wf: set<int>, io: Io)
    requires n.Ok()
    ensures ServeConn(n, i, rf, wf, io).sound <==>
            !(ServiceOf(n, i, rf, wf, io) == ConnectFailed && GotAndKept(n.Drop(i), io.script, n.FdOf(i)))
  {
    hide State.Ok, RunScript, GotAndKept, FailedOpens, StrayOpens, OpensOf, PostedBy;
    if ServiceOf(n, i, rf, wf, io) == ConnectFailed {
      LiveFd(n, i);
      DropClosesIts(n, i);
      OpenAfterScript(n.Drop(i), io.script, n.FdOf(i));
    }
  }

  lemma DropClosesIts(n: State, i: nat)
    requires n.Live(i) && n.ArgOk(i)
    ensures n.FdOf(i) !in n.Drop(i).openFds
  {
  }

  // ----- Runs of rounds

  /** One round of a run: the state before it, what the surroundings did, the events drained, the gate. */
  datatype Traced = Traced(before: State, r: Round, handled: nat, fired: bool) {
    function Outcome(): Outcome {
      RoundOutcome(before, r, handled, fired)
    }
  }

  /** The rounds of a run taken together. */
  function Total(n: State, trace: seq<Traced>): Outcome {
    if trace == [] then Quiet(n)
    else Total(n, trace[..|trace| - 1]).Plus(trace[|trace| - 1].Outcome())
  }

  /** Each round starts in the state the one before it left, which was sound. */
  predicate Chained(n: State, trace: seq<Traced>) {
    trace == [] ||
    (var front, last := trace[..|trace| - 1], trace[|trace| - 1];
     Chained(n, front) && Total(n, front).sound && last.before == Total(n, front).net)
  }

  lemma OneMoreRound(n: State, trace: seq<Traced>, t: Traced)
    requires Chained(n, trace) && Total(n, trace).sound && t.before == Total(n, trace).net
    ensures Chained(n, trace + [t]) && Total(n, trace + [t]) == Total(n, trace).Plus(t.Outcome())
  {
    hide RoundOutcome;
    assert (trace + [t])[..|trace|] == trace;
  }

  /** The traced rounds lead from n to m, soundly or not, and put these events into the ring. */
  ghost predicate Leads(n: State, trace: seq<Traced>, m: State, sound: bool, posted: seq<WishEvent>) {
    && Chained(n, trace)
    && m == Total(n, trace).net && sound == Total(n, trace).sound
    && posted == Events(Total(n, trace).posts)
  }

  lemma LeadsSomewhere(n: State, trace: seq<Traced>, m: State, sound: bool, posted: seq<WishEvent>)
    requires Leads(n, trace, m, sound, posted)
    ensures Chained(n, trace)
    ensures m == Total(n, trace).net && sound == Total(n, trace).sound && posted == Events(Total(n, trace).posts)
  {
  }

  lemma LeadsNowhere(n: State)
    ensures Leads(n, [], n, true, [])
  {
  }

  lemma {:induction false} LeadsOn(n: State, trace: seq<Traced>, m: State, posted: seq<WishEvent>, t: Traced)
    requires Leads(n, trace, m, true, posted) && t.before == m
    ensures Leads(n, trace + [t], t.Outcome().net, t.Outcome().sound, posted + Events(t.Outcome().posts))
  {
    hide RoundOutcome, Chained, Total, Events;
    OneMoreRound(n, trace, t);
    EventsThen(Total(n, trace).posts, t.Outcome().posts);
  }

  /** What holds of a round holds of every run. */
  lemma {:induction false} RunFaithful(n: State, trace: seq<Traced>)
    requires n.Ok() && Chained(n, trace)
    ensures Faithful(n, Total(n, trace))
  {
    hide State.Ok, Faithful, RoundOutcome;
    NothingDone(n);
    QuietFaithful(n, n);
    if trace != [] {
      var front, last := trace[..|trace| - 1], trace[|trace| - 1];
      RunFaithful(n, front);
      SoundIsOk(n, Total(n, front));
      RoundFaithful(last.before, last.r, last.handled, last.fired);
      PlusFaithful(n, Total(n, front), last.Outcome());
    }
  }

  // ----- Sizes

  lemma {:induction false} ServeRelaySizes(n: State, j: nat, rf: set<int>, wf: set<int>, io: Io)
    ensures var m := ServeRelay(n, j, rf, wf, io).net;
            |m.pool| == |n.pool| && |m.relays| == |n.relays| && m.fixed == n.fixed
  {
    hide RunScript;
    RunKeepsSizes(n, io.script);
  }

  lemma {:induction false} DiscoverySizes(n: State, rf: set<int>, r: Round)
    ensures var m := ServeDiscovery(n, rf, r).net;
            |m.pool| == |n.pool| && |m.relays| == |n.relays| && m.fixed == n.fixed
  {
    hide RunScript;
    RunKeepsSizes(n, r.discovered);
  }

  lemma {:induction false} ServeConnSizes(n: State, i: nat, rf: set<int>, wf: set<int>, io: Io)
    ensures var m := ServeConn(n, i, rf, wf, io).net;
            |m.pool| == |n.pool| && |m.relays| == |n.relays| && m.fixed == n.fixed
  {
    hide RunScript;
    RunKeepsSizes(n, io.script);
    RunKeepsSizes(BeforeCore(n, i, ServiceOf(n, i, rf, wf, io)), io.script);
  }

  // ----- The drain

  /** The events posted by the first k handler calls of a drain. */
  function PostedByFirst(handlers: seq<seq<Action>>, k: nat): seq<WishEvent> {
    if k == 0 then []
    else PostedByFirst(handlers, k - 1) + PostedBy(HandlerAt(handlers, k - 1))
  }

  lemma {:induction false} HandlerPosts(n: State, handlers: seq<seq<Action>>, k: nat)
    ensures Events(AfterHandlers(n, handlers, k).posts) == PostedByFirst(handlers, k)
  {
    hide RunScript, PostedBy, FailedOpens, StrayOpens, OpensOf;
    if k > 0 {
      HandlerPosts(n, handlers, k - 1);
      var o, script := AfterHandlers(n, handlers, k - 1), HandlerAt(handlers, k - 1);
      EventsThen(o.posts, CorePosts(PostedBy(script)));
      EventsOfCore(PostedBy(script));
    }
  }

  lemma {:induction false} RestPosts(n: State, r: Round, k: nat, fired: bool)
    ensures Events(RestOutcome(n, r, k, fired).posts)
         == PostedByFirst(r.handlers, k) + (if fired then PostedBy(r.periodic) else []) + PostedBy(r.ipc)
  {
    hide Events, AfterHandlers, RunScript, FailedOpens, StrayOpens, OpensOf, PostedBy, PostedByFirst;
    var drained := AfterHandlers(n, r.handlers, k);
    HandlerPosts(n, r.handlers, k);
    var p, q := CorePosts(PostedBy(r.periodic)), CorePosts(PostedBy(r.ipc));
    EventsThen(drained.posts, p);
    EventsThen(if fired then drained.posts + p else drained.posts, q);
    EventsOfCore(PostedBy(r.periodic));
    EventsOfCore(PostedBy(r.ipc));
  }

  /** `ev` is what the j-th get reads when `len` events have been posted: the newest event of its slot. */
  ghost predicate ReadAt(posted: seq<WishEvent>, j: nat, len: nat, ev: WishEvent) {
    var slot := j % QUEUE_LEN;
    j < len <= |posted| && slot < len && ev == posted[Latest(len, slot)]
  }

  /** All events handled in a drain that began with event j, each read before its own handler posted. */
  ghost predicate AllReadInTurn(posted: seq<WishEvent>, j: nat, len: nat, handled: seq<WishEvent>, handlers: seq<seq<Action>>) {
    forall k | 0 <= k < |handled| :: ReadAt(posted, j + k, len + |PostedByFirst(handlers, k)|, handled[k])
  }

  lemma {:induction false} OneMoreRead(before: seq<WishEvent>, more: seq<WishEvent>, j: nat, len: nat,
                                       handled: seq<WishEvent>, handlers: seq<seq<Action>>, ev: WishEvent)
    requires AllReadInTurn(before, j, len, handled, handlers)
    requires len + |PostedByFirst(handlers, |handled|)| == |before|
    requires ReadAt(before, j + |handled|, |before|, ev)
    ensures AllReadInTurn(before + more, j, len, handled + [ev], handlers)
  {
    hide Latest, PostedByFirst;
    forall k | 0 <= k < |handled + [ev]|
      ensures ReadAt(before + more, j + k, len + |PostedByFirst(handlers, k)|, (handled + [ev])[k])
    {
      assert ReadAt(before, j + k, len + |PostedByFirst(handlers, k)|, (handled + [ev])[k]);
    }
  }

  /** A drain from state n, `posted0` and `taken0` that has handled these events has come to m, `posted` and `taken`. */
  ghost predicate Drained(n: State, posted0: seq<WishEvent>, taken0: nat, handlers: seq<seq<Action>>,
                          handled: seq<WishEvent>, m: State, posted: seq<WishEvent>, taken: nat) {
    && m == AfterHandlers(n, handlers, |handled|).net
    && posted == posted0 + PostedByFirst(handlers, |handled|)
    && taken == taken0 + |handled|
    && AllReadInTurn(posted, taken0, |posted0|, handled, handlers)
  }

  lemma NothingDrained(n: State, posted0: seq<WishEvent>, taken0: nat, handlers: seq<seq<Action>>)
    ensures Drained(n, posted0, taken0, handlers, [], n, posted0, taken0)
  {
  }

  lemma {:induction false} OneMoreDrained(n: State, posted0: seq<WishEvent>, taken0: nat, handlers: seq<seq<Action>>,
                                          handled: seq<WishEvent>, m: State, posted: seq<WishEvent>, taken: nat, ev: WishEvent)
    requires Drained(n, posted0, taken0, handlers, handled, m, posted, taken)
    requires ReadAt(posted, taken, |posted|, ev)
    ensures var script := HandlerAt(handlers, |handled|);
            Drained(n, posted0, taken0, handlers, handled + [ev],
                    RunScript(m, script), posted + PostedBy(script), taken + 1)
  {
    hide AllReadInTurn, ReadAt, RunScript, PostedBy, FailedOpens, StrayOpens, OpensOf, HandlerAt;
    var script := HandlerAt(handlers, |handled|);
    OneMoreRead(posted, PostedBy(script), taken0, |posted0|, handled, handlers, ev);
    assert PostedByFirst(handlers, |handled| + 1) == PostedByFirst(handlers, |handled|) + PostedBy(script);
  }

  lemma AllDrained(n: State, posted0: seq<WishEvent>, taken0: nat, handlers: seq<seq<Action>>,
                   handled: seq<WishEvent>, m: State, posted: seq<WishEvent>, taken: nat)
    requires Drained(n, posted0, taken0, handlers, handled, m, posted, taken)
    ensures m == AfterHandlers(n, handlers, |handled|).net && taken == taken0 + |handled|
    ensures posted == posted0 + PostedByFirst(handlers, |handled|)
    ensures AllReadInTurn(posted, taken0, |posted0|, handled, handlers)
  {
  }

  lemma LateHandlers(handlers: seq<seq<Action>>, k: nat)
    ensures k >= |handlers| ==> PostedBy(HandlerAt(handlers, k)) == []
  {
  }

  /** Without overrun a drain handles every event, from before and from its own handlers, once and in order. */
  lemma {:induction false} DrainIsFifo(posted: seq<WishEvent>, j: nat, len: nat, handled: seq<WishEvent>, handlers: seq<seq<Action>>)
    requires AllReadInTurn(posted, j, len, handled, handlers) && j + |handled| == |posted|
    requires forall k | 0 <= k < |handled| :: len + |PostedByFirst(handlers, k)| <= j + k + QUEUE_LEN
    ensures handled == posted[j..]
  {
    hide Latest, PostedByFirst;
    forall k | 0 <= k < |handled|
      ensures handled[k] == posted[j + k]
    {
      assert ReadAt(posted, j + k, len + |PostedByFirst(handlers, k)|, handled[k]);
      LatestIsLargest(len + |PostedByFirst(handlers, k)|, (j + k) % QUEUE_LEN, j + k);
    }
  }
}
