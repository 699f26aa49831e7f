/**
 * What serving the sockets comes to, told from readiness and the results of recv, connect and
 * accept alone; and that a pass of the loop serves everything that is ready, each in its turn.
 */
module Services {
  import opened Bits
  import opened CText
  import opened CoreActions
  import opened Dispatch
  import opened EventRing
  import opened Net
  import opened Sockets

  /** The core is told something in state m and reacts; nobody else posts anything. */
  predicate CoreReacts(o: Outcome, m: State, script: seq<Action>) {
    o.net == RunScript(m, script) && Events(o.posts) == PostedBy(script)
  }

  /** Nothing changes and nothing is posted. */
  predicate NothingHappens(n: State, o: Outcome) {
    o.net == n && o.posts == []
  }

  // ----- One context

  /**
   * A context whose socket is ready for writing: connect is repeated at the stored address. A result
   * of at least zero is reported to the core when the context waits for it. A negative one ends the
   * connection before the core is told, and its number is closed a second time after that.
   */
  lemma {:induction false} RetriedByResult(n: State, i: nat, rf: set<int>, wf: set<int>, io: Io)
    requires n.Live(i) && n.ArgOk(i) && n.FdOf(i) in wf && n.FdOf(i) !in rf
    ensures var o := ServeConn(n, i, rf, wf, io);
            && |o.calls| == 1 && o.calls[0].ConnectCall? && o.calls[0].i == i
            && o.calls[0].address == n.heap[n.pool[i].sendArg.value].remote
            && ((io.ret == Zero || io.ret == Positive) && n.pool[i].transport == Connecting ==>
                  CoreReacts(o, n, io.script) && o.sound)
            && ((io.ret == Zero || io.ret == Positive) && n.pool[i].transport != Connecting ==>
                  NothingHappens(n, o) && o.sound)
            && (io.ret == Already || io.ret == Failed ==>
                  exists m: State :: Ended(n, m, i)
                    && Events(o.posts) == PostedBy(io.script)
                    && o.net == RunScript(m, io.script).(openFds := RunScript(m, io.script).openFds - {n.FdOf(i)})
                    && (o.sound <==> n.FdOf(i) !in RunScript(m, io.script).openFds))
  {
    hide RunScript, PostedBy, FailedOpens, StrayOpens, OpensOf;
    EventsOfCore(PostedBy(io.script));
    if io.ret == Already || io.ret == Failed {
      assert Ended(n, n.Drop(i), i);
    }
  }

  /**
   * A context whose socket is ready for reading: recv is asked for all that the buffer takes, but
   * at most 512 bytes. What it returns is fed and announced, zero ends the connection before
   * the core is told, a failure is ignored. With a full buffer nothing is read.
   */
  lemma {:induction false} ReadByResult(n: State, i: nat, rf: set<int>, wf: set<int>, io: Io)
    requires n.Live(i) && n.ArgOk(i) && n.FdOf(i) in rf && n.pool[i].rxUsed <= RX_SIZE
    ensures var o, used := ServeConn(n, i, rf, wf, io), n.pool[i].rxUsed;
            var requested: nat := if RX_SIZE - used < 512 then RX_SIZE - used else 512;
            var len: int := if io.recvLen < requested then io.recvLen else requested;
            && o.sound
            && o.calls == (if used == RX_SIZE then [] else [RecvCall(i, used, requested, len)])
            && (used == RX_SIZE || io.recvLen < 0 ==> NothingHappens(n, o))
            && (used < RX_SIZE && io.recvLen == 0 ==>
                  exists m: State :: Ended(n, m, i) && CoreReacts(o, m, io.script))
            && (used < RX_SIZE && io.recvLen > 0 ==>
                  && o.net == RunScript(n.(pool := n.pool[i := n.pool[i].(rxUsed := used + len)]), io.script)
                  && Events(o.posts) == PostedBy(io.script) + [WishEvent(NewData, i)])
  {
    hide RunScript, PostedBy, FailedOpens, StrayOpens, OpensOf, Own;
    EventsOfCore(PostedBy(io.script));
    OwnOfOne(PostedBy(io.script), WishEvent(NewData, i));
    assert Ended(n, n.Drop(i), i);
  }

  /** A context that is not in use, or whose socket is not ready, is left alone. */
  lemma {:induction false} NotReadyNotServed(n: State, i: nat, rf: set<int>, wf: set<int>, io: Io)
    requires !n.Live(i) || !n.ArgOk(i) || (n.FdOf(i) !in rf && n.FdOf(i) !in wf)
    ensures var o := ServeConn(n, i, rf, wf, io); NothingHappens(n, o) && o.calls == [] && o.sound
  {
    hide RunScript, PostedBy, FailedOpens, StrayOpens, OpensOf;
  }

  // ----- One relay

  /**
   * A connecting relay ready for writing repeats its connect: the core is told of success, an attempt
   * still in progress changes nothing, a failure closes exactly its socket. A relay ready for reading
   * reads one byte: the core is told, an end closes exactly its socket, a failure changes
   * nothing. A relay that is not ready is left alone.
   */
  lemma {:induction false} RelayByResult(n: State, j: nat, rf: set<int>, wf: set<int>, io: Io)
    requires n.Ok() && j < |n.relays|
    ensures var o, r := ServeRelay(n, j, rf, wf, io), n.relays[j];
            var retried := r.state == RelayConnecting && r.sockFd in wf;
            var read := r.HasSocket() && r.sockFd in rf && !retried;
            && (retried && (io.ret == Zero || io.ret == Positive) ==> CoreReacts(o, n, io.script))
            && (retried && io.ret == Already ==> NothingHappens(n, o))
            && (retried && io.ret == Failed ==> RelayEnded(n, o.net, j) && o.posts == [])
            && (read && io.recvLen > 0 ==> CoreReacts(o, n, io.script))
            && (read && io.recvLen == 0 ==> RelayEnded(n, o.net, j) && o.posts == [])
            && (read && io.recvLen < 0 ==> NothingHappens(n, o))
            && (!retried && !read ==> NothingHappens(n, o))
  {
    hide State.Ok, RunScript, PostedBy, FailedOpens, StrayOpens, OpensOf;
    EventsOfCore(PostedBy(io.script));
    NotOpening(n, j);
    if n.relays[j].HasSocket() {
      RelaySocketIsOpen(n, j);
    }
  }

  lemma {:induction false} RelaySocketIsOpen(n: State, j: nat)
    requires n.Ok() && j < |n.relays| && n.relays[j].HasSocket()
    ensures n.relays[j].sockFd >= 0 && n.relays[j].sockFd in n.openFds
  {
    hide State.TargetsOk, State.BuffersOk, State.RelaysOk;
  }

  // ----- Discovery and the server socket

  /** Discovery is read when its socket is ready. */
  lemma {:induction false} DiscoveryByResult(n: State, rf: set<int>, r: Round)
    ensures var o := ServeDiscovery(n, rf, r);
            && o.sound && o.calls == []
            && (n.fixed.discovery in rf ==> CoreReacts(o, n, r.discovered))
            && (n.fixed.discovery !in rf ==> NothingHappens(n, o))
  {
    hide RunScript, PostedBy, FailedOpens, StrayOpens, OpensOf;
    EventsOfCore(PostedBy(r.discovered));
  }

  /**
   * A connection request: a new descriptor for which the core has a context is registered with
   * that context, and then the core is told. So is the result of a failed accept, without a
   * reaction of the core. Without a request or without a context nothing changes.
   */
  lemma {:induction false} AcceptedByResult(n: State, rf: set<int>, a: Incoming)
    requires Acceptable(n.pool, n.heap, n.openFds, a)
    ensures var o := ServeServer(n, rf, a);
            && (n.fixed.server !in rf || a.context == None ==> NothingHappens(n, o) && o.sound)
            && (n.fixed.server in rf && a.context.Some? ==>
                  exists m: State ::
                    Registered(n, m, a.context.value, Context(InUse, OtherTransport, None, false, 0), a.addr, a.newSock, Unset)
                    && (a.newSock >= 0 ==> CoreReacts(o, m, a.script) && o.sound)
                    && (a.newSock < 0 ==> NothingHappens(m, o) && !o.sound))
  {
    hide RunScript, PostedBy, FailedOpens, StrayOpens, OpensOf;
    EventsOfCore(PostedBy(a.script));
    if a.context.Some? {
      var i := a.context.value;
      assert Registered(n, Accepted(n, i, a.addr, a.newSock), i, Context(InUse, OtherTransport, None, false, 0), a.addr, a.newSock, Unset);
    }
  }

  // ----- A pass serves everything that is ready

  /** The stations of a pass. */
  datatype Turn = DiscoveryTurn | RelayTurn(j: nat) | ConnTurn(i: nat) | ServerTurn

  function ServeTurn(n: State, t: Turn, rf: set<int>, wf: set<int>, r: Round): Outcome {
    match t
    case DiscoveryTurn => ServeDiscovery(n, rf, r)
    case RelayTurn(j) => ServeRelay(n, j, rf, wf, r.relayIo(j))
    case ConnTurn(i) => ServeConn(n, i, rf, wf, r.connIo(i))
    case ServerTurn => ServeServer(n, rf, r.incoming)
  }

  /** Turns one after the other, until a descriptor is lost track of. */
  function InTurn(n: State, ts: seq<Turn>, rf: set<int>, wf: set<int>, r: Round): Outcome {
    if ts == [] then Quiet(n)
    else
      var o := InTurn(n, ts[..|ts| - 1], rf, wf, r);
      if o.sound then o.Plus(ServeTurn(o.net, ts[|ts| - 1], rf, wf, r)) else o
  }

  function RelayTurns(k: nat): (ts: seq<Turn>)
    ensures |ts| == k
  {
    seq(k, (j: nat) => RelayTurn(j))
  }

  function ConnTurns(k: nat): (ts: seq<Turn>)
    ensures |ts| == k
  {
    seq(k, (i: nat) => ConnTurn(i))
  }

  /** Discovery, the relays, the pool and the server socket. */
  function PassTurns(n: State): (ts: seq<Turn>)
    ensures |ts| == 1 + |n.relays| + POOL_SIZE + 1
  {
    [DiscoveryTurn] + RelayTurns(|n.relays|) + ConnTurns(POOL_SIZE) + [ServerTurn]
  }

  lemma PlusAssoc(a: Outcome, b: Outcome, c: Outcome)
    ensures a.Plus(b).Plus(c) == a.Plus(b.Plus(c))
  {
    assert a.posts + b.posts + c.posts == a.posts + (b.posts + c.posts);
    assert a.calls + b.calls + c.calls == a.calls + (b.calls + c.calls);
    assert a.opens + b.opens + c.opens == a.opens + (b.opens + c.opens);
  }

  lemma PlusQuiet(n: State, o: Outcome)
    ensures Quiet(n).Plus(o) == o && (o.sound ==> o.Plus(Quiet(o.net)) == o)
  {
    assert [] + o.posts == o.posts + [] == o.posts;
    assert [] + o.calls == o.calls + [] == o.calls;
    assert [] + o.opens == o.opens + [] == o.opens;
  }

  lemma PlusEnd(o: Outcome, next: Outcome)
    ensures o.Plus(next).sound == next.sound && o.Plus(next).net == next.net
  {
  }

  lemma {:induction false} InTurnThen(n: State, a: seq<Turn>, b: seq<Turn>, rf: set<int>, wf: set<int>, r: Round)
    ensures var o := InTurn(n, a, rf, wf, r);
            InTurn(n, a + b, rf, wf, r) == if o.sound then o.Plus(InTurn(o.net, b, rf, wf, r)) else o
  {
    hide ServeTurn, Outcome.Plus;
    var o := InTurn(n, a, rf, wf, r);
    if b == [] {
      assert a + b == a;
      PlusQuiet(n, o);
    } else {
      var front, last := b[..|b| - 1], b[|b| - 1];
      assert (a + b)[..|a + b| - 1] == a + front;
      InTurnThen(n, a, front, rf, wf, r);
      var p := InTurn(o.net, front, rf, wf, r);
      PlusEnd(o, p);
      PlusAssoc(o, p, ServeTurn(p.net, last, rf, wf, r));
    }
  }

  lemma {:induction false} OneTurn(n: State, t: Turn, rf: set<int>, wf: set<int>, r: Round)
    ensures InTurn(n, [t], rf, wf, r) == ServeTurn(n, t, rf, wf, r)
  {
    hide ServeTurn;
    assert [t][..0] == [];
    assert InTurn(n, [t][..0], rf, wf, r) == Quiet(n);
    PlusQuiet(n, ServeTurn(n, t, rf, wf, r));
  }

  lemma {:induction false} RelaysInTurn(n: State, k: nat, rf: set<int>, wf: set<int>, r: Round)
    requires Serving(n, wf)
    ensures ServeRelays(n, k, rf, wf, r.relayIo) == InTurn(n, RelayTurns(k), rf, wf, r)
  {
    hide Serving, ServeRelay, Faithful, Outcome.Plus;
    if k > 0 {
      assert RelayTurns(k)[..k - 1] == RelayTurns(k - 1);
      RelaysInTurn(n, k - 1, rf, wf, r);
      ServeRelaysFaithful(n, k - 1, rf, wf, r.relayIo);
    }
  }

  lemma {:induction false} ConnsInTurn(n: State, k: nat, rf: set<int>, wf: set<int>, r: Round)
    ensures ServeConns(n, k, rf, wf, r.connIo) == InTurn(n, ConnTurns(k), rf, wf, r)
  {
    hide ServeConn, Outcome.Plus;
    if k > 0 {
      assert ConnTurns(k)[..k - 1] == ConnTurns(k - 1);
      ConnsInTurn(n, k - 1, rf, wf, r);
    }
  }

  /** A pass is these turns in this order. */
  lemma {:induction false} PassInOrder(n: State, rf: set<int>, wf: set<int>, r: Round)
    requires Serving(n, wf)
    ensures ServeAll(n, rf, wf, r) == InTurn(n, PassTurns(n), rf, wf, r)
  {
    hide Serving, ServeServer, ServeRelays, ServeConns, ServeDiscovery, Faithful, Outcome.Plus, InTurn;
    var o1 := ServeDiscovery(n, rf, r);
    DiscoveryFaithful(n, rf, wf, r);
    OneTurn(n, DiscoveryTurn, rf, wf, r);
    var o2 := ServeRelays(o1.net, |n.relays|, rf, wf, r.relayIo);
    ServeRelaysFaithful(o1.net, |n.relays|, rf, wf, r.relayIo);
    RelaysInTurn(o1.net, |n.relays|, rf, wf, r);
    PlusEnd(o1, o2);
    var o3 := ServeConns(o2.net, POOL_SIZE, rf, wf, r.connIo);
    ConnsInTurn(o2.net, POOL_SIZE, rf, wf, r);
    PlusEnd(o1.Plus(o2), o3);
    OneTurn(o3.net, ServerTurn, rf, wf, r);
    var upToRelays := [DiscoveryTurn] + RelayTurns(|n.relays|);
    InTurnThen(n, [DiscoveryTurn], RelayTurns(|n.relays|), rf, wf, r);
    InTurnThen(n, upToRelays, ConnTurns(POOL_SIZE), rf, wf, r);
    InTurnThen(n, upToRelays + ConnTurns(POOL_SIZE), [ServerTurn], rf, wf, r);
  }

  lemma {:induction false} TurnServing(n: State, t: Turn, rf: set<int>, wf: set<int>, r: Round)
    requires Serving(n, wf) && t != ServerTurn && ServeTurn(n, t, rf, wf, r).sound
    ensures Serving(ServeTurn(n, t, rf, wf, r).net, wf)
  {
    hide Serving, ServeRelay, ServeConn, ServeDiscovery, Faithful;
    match t {
      case DiscoveryTurn => DiscoveryFaithful(n, rf, wf, r);
      case RelayTurn(j) => ServeRelayFaithful(n, j, rf, wf, r.relayIo(j));
      case ConnTurn(i) => ServeConnFaithful(n, i, rf, wf, r.connIo(i));
    }
  }

  lemma {:induction false} InTurnServing(n: State, ts: seq<Turn>, rf: set<int>, wf: set<int>, r: Round)
    requires Serving(n, wf) && ServerTurn !in ts && InTurn(n, ts, rf, wf, r).sound
    ensures Serving(InTurn(n, ts, rf, wf, r).net, wf)
  {
    hide Serving, ServeTurn, Outcome.Plus;
    if ts != [] {
      var front := ts[..|ts| - 1];
      var o := InTurn(n, front, rf, wf, r);
      if o.sound {
        PlusEnd(o, ServeTurn(o.net, ts[|ts| - 1], rf, wf, r));
        InTurnServing(n, front, rf, wf, r);
        TurnServing(o.net, ts[|ts| - 1], rf, wf, r);
      }
    }
  }

  /** `o` is the part `before`, then this turn, then `after`. */
  predicate Around(o: Outcome, before: Outcome, turn: Outcome, after: Outcome) {
    o == before.Plus(turn).Plus(after)
  }

  /** In a sound pass every station has its turn, in a state that satisfies the invariants. */
  lemma {:induction false} EveryTurnComes(n: State, k: nat, rf: set<int>, wf: set<int>, r: Round)
    returns (before: Outcome, after: Outcome)
    requires Serving(n, wf) && k < |PassTurns(n)| && ServeAll(n, rf, wf, r).sound
    ensures Serving(before.net, wf)
    ensures Around(ServeAll(n, rf, wf, r), before, ServeTurn(before.net, PassTurns(n)[k], rf, wf, r), after)
  {
    hide Serving, ServeAll, ServeTurn, Outcome.Plus, InTurn;
    var ts := PassTurns(n);
    var t := ts[k];
    PassInOrder(n, rf, wf, r);
    assert ts == ts[..k] + ([t] + ts[k + 1..]);
    InTurnThen(n, ts[..k], [t] + ts[k + 1..], rf, wf, r);
    before := InTurn(n, ts[..k], rf, wf, r);
    InTurnServing(n, ts[..k], rf, wf, r);
    InTurnThen(before.net, [t], ts[k + 1..], rf, wf, r);
    OneTurn(before.net, t, rf, wf, r);
    var turn := ServeTurn(before.net, t, rf, wf, r);
    PlusEnd(before, InTurn(before.net, [t] + ts[k + 1..], rf, wf, r));
    after := InTurn(turn.net, ts[k + 1..], rf, wf, r);
    PlusAssoc(before, turn, after);
  }

  /** Whose turn it is to look at a descriptor. */
  function TurnOf(o: Owner): Option<Turn> {
    match o
    case Server => Some(ServerTurn)
    case Discovery => Some(DiscoveryTurn)
    case Broadcast => None
    case Conn(i) => Some(ConnTurn(i))
    case RelayOf(j) => Some(RelayTurn(j))
  }

  function ReadyToRead(n: State, r: Round): set<int> {
    ReadFds(n, |n.relays|, |n.pool|) * r.ready
  }

  function ReadyToWrite(n: State, r: Round): set<int> {
    WriteFds(n, |n.relays|, |n.pool|) * r.ready
  }

  /**
   * When select returns more than zero, every ready descriptor that anyone waits on is among those
   * the pass looks at, and its owner has its turn. The turn of a context whose descriptor is then
   * still the one selected makes a call of recv or connect for it, unless its buffer is full.
   */
  lemma {:induction false} ReadyIsServed(n: State, r: Round, fd: int) returns (t: Turn, before: Outcome, after: Outcome)
    requires n.Ok() && r.selectRet > 0 && AfterSelect(n, r).sound
    requires fd in r.ready && fd in n.owners && n.owners[fd] != Broadcast
    ensures TurnOf(n.owners[fd]) == Some(t) && before.net.Ok()
    ensures fd in ReadyToRead(n, r) || fd in ReadyToWrite(n, r)
    ensures Around(AfterSelect(n, r), before, ServeTurn(before.net, t, ReadyToRead(n, r), ReadyToWrite(n, r), r), after)
    ensures t.ConnTurn? && before.net.Live(t.i) && before.net.ArgOk(t.i) && before.net.FdOf(t.i) == fd
            && before.net.pool[t.i].rxUsed < RX_SIZE
            ==> exists c :: c in AfterSelect(n, r).calls && c.i == t.i
  {
    hide State.Ok, ServeAll, ReadFds, WriteFds, NoAcceptedIn, ServeTurn, Around;
    var wfds := WriteFds(n, |n.relays|, |n.pool|);
    SelectSetsOk(n);
    NoAcceptedAmongFewer(n, wfds, ReadyToWrite(n, r));
    OwnerKnown(n, fd);
    SelectedForOwner(n, fd);
    t := TurnOf(n.owners[fd]).value;
    var k := PlaceOf(n, t);
    before, after := EveryTurnComes(n, k, ReadyToRead(n, r), ReadyToWrite(n, r), r);
    if t.ConnTurn? && before.net.Live(t.i) && before.net.ArgOk(t.i) && before.net.FdOf(t.i) == fd
       && before.net.pool[t.i].rxUsed < RX_SIZE {
      CallIsMade(AfterSelect(n, r), before, t.i, ReadyToRead(n, r), ReadyToWrite(n, r), r, after);
    }
  }

  lemma PlaceOf(n: State, t: Turn) returns (k: nat)
    requires match t case RelayTurn(j) => j < |n.relays| case ConnTurn(i) => i < POOL_SIZE case _ => true
    ensures k < |PassTurns(n)| && PassTurns(n)[k] == t
  {
    match t {
      case DiscoveryTurn => k := 0;
      case RelayTurn(j) => k := 1 + j;
      case ConnTurn(i) => k := 1 + |n.relays| + i;
      case ServerTurn => k := 1 + |n.relays| + POOL_SIZE;
    }
  }

  lemma {:induction false} OwnerKnown(n: State, fd: int)
    requires n.Ok() && fd in n.owners
    ensures match n.owners[fd]
            case Conn(i) => i < |n.pool| == POOL_SIZE
            case RelayOf(j) => j < |n.relays| && n.relays[j].HasSocket()
            case _ => true
  {
    hide State.TargetsOk, State.BuffersOk, State.RelaysOk;
  }

  lemma {:induction false} CallIsMade(o: Outcome, before: Outcome, i: nat, rf: set<int>, wf: set<int>, r: Round, after: Outcome)
    requires Around(o, before, ServeTurn(before.net, ConnTurn(i), rf, wf, r), after)
    requires rf !! wf && before.net.Live(i) && before.net.ArgOk(i) && before.net.pool[i].rxUsed < RX_SIZE
    requires before.net.FdOf(i) in rf || before.net.FdOf(i) in wf
    ensures exists c :: c in o.calls && c.i == i
  {
    hide ServeConn;
    if before.net.FdOf(i) in rf {
      ReadByResult(before.net, i, rf, wf, r.connIo(i));
    } else {
      RetriedByResult(before.net, i, rf, wf, r.connIo(i));
    }
    var turn := ServeConn(before.net, i, rf, wf, r.connIo(i));
    assert turn.calls[0].i == i && turn.calls[0] in o.calls;
  }

  /** When select timed out or failed, nothing is served. */
  lemma NoPassWithoutReady(n: State, r: Round)
    requires r.selectRet <= 0
    ensures NothingHappens(n, AfterSelect(n, r)) && AfterSelect(n, r).calls == [] && AfterSelect(n, r).sound
  {
  }

  // ----- The rest of a round

  /** What the core does while the first k events are handled. */
  function Handled(handlers: seq<seq<Action>>, k: nat): seq<Action> {
    if k == 0 then [] else Handled(handlers, k - 1) + HandlerAt(handlers, k - 1)
  }

  lemma {:induction false} ScriptThen(n: State, a: seq<Action>, b: seq<Action>)
    ensures RunScript(n, a + b) == RunScript(RunScript(n, a), b)
    ensures PostedBy(a + b) == PostedBy(a) + PostedBy(b)
  {
    hide Step;
    if b == [] {
      assert a + b == a;
    } else {
      assert (a + b)[..|a + b| - 1] == a + b[..|b| - 1];
      ScriptThen(n, a, b[..|b| - 1]);
    }
  }

  lemma {:induction false} ReactsThen(n: State, o: Outcome, a: seq<Action>, b: seq<Action>)
    requires CoreReacts(o, n, a)
    ensures CoreReacts(o.Plus(Told(o.net, b)), n, a + b)
  {
    hide RunScript, PostedBy, FailedOpens, StrayOpens, OpensOf, Events;
    ScriptThen(n, a, b);
    EventsThen(o.posts, CorePosts(PostedBy(b)));
    EventsOfCore(PostedBy(b));
  }

  lemma {:induction false} HandlersAreOneRun(n: State, handlers: seq<seq<Action>>, k: nat)
    ensures CoreReacts(AfterHandlers(n, handlers, k), n, Handled(handlers, k))
  {
    hide CoreReacts, Told, HandlerAt;
    if k == 0 {
      QuietReacts(n);
    } else {
      HandlersAreOneRun(n, handlers, k - 1);
      ReactsThen(n, AfterHandlers(n, handlers, k - 1), Handled(handlers, k - 1), HandlerAt(handlers, k - 1));
    }
  }

  lemma QuietReacts(n: State)
    ensures CoreReacts(Quiet(n), n, [])
  {
  }

  /**
   * After the sockets the round is one run of the core: the events waiting are handled, then the
   * once-a-second work is done if the gate fires, then the IPC task.
   */
  lemma {:induction false} RestIsOneRun(n: State, r: Round, k: nat, fired: bool)
    ensures CoreReacts(RestOutcome(n, r, k, fired), n, Handled(r.handlers, k) + (if fired then r.periodic else []) + r.ipc)
  {
    hide CoreReacts, Told, AfterHandlers;
    var drained, script := AfterHandlers(n, r.handlers, k), Handled(r.handlers, k);
    HandlersAreOneRun(n, r.handlers, k);
    ReactsThen(n, drained, script, r.periodic);
    assert script + [] == script;
    var worked := if fired then drained.Plus(Told(drained.net, r.periodic)) else drained;
    ReactsThen(n, worked, script + (if fired then r.periodic else []), r.ipc);
  }

  /** A sound round is the pass and then that run; a round that loses track of a descriptor ends there. */
  lemma {:induction false} RoundInOrder(n: State, r: Round, k: nat, fired: bool)
    ensures var served, o := AfterSelect(n, r), RoundOutcome(n, r, k, fired);
            var rest := Handled(r.handlers, k) + (if fired then r.periodic else []) + r.ipc;
            if served.sound then
              o.sound && o.net == RunScript(served.net, rest) && Events(o.posts) == Events(served.posts) + PostedBy(rest)
            else o == served
  {
    hide AfterSelect, RestOutcome, RunScript, PostedBy, Events, Handled;
    var served := AfterSelect(n, r);
    RestIsOneRun(served.net, r, k, fired);
    EventsThen(served.posts, RestOutcome(served.net, r, k, fired).posts);
  }

  // ----- Runs

  /** Over any run of rounds a connection still to be made goes to the address of the last open of its context. */
  lemma {:induction false} RunConnectsToLastOpen(n: State, trace: seq<Traced>, i: nat)
    requires n.Ok() && Chained(n, trace) && Total(n, trace).sound
    ensures var o := Total(n, trace);
            o.net.Live(i) && o.net.pool[i].transport == Connecting ==>
              o.net.ArgOk(i) && i < |n.targets|
              && o.net.heap[o.net.pool[i].sendArg.value].remote == Retarget(n.targets, o.opens)[i]
  {
    hide State.Ok, Total, Chained, Retarget, Lost, Own;
    RunFaithful(n, trace);
    ConnectingToTarget(Total(n, trace).net, i);
  }
}
