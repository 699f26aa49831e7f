/**
 * What the invariants of `Net` mean for the main loop: the descriptor sets it selects
 * on, the retries of connect, the books of sockets and memory, and the two places
 * where the code can lose track of a descriptor.
 */
module Sockets {
  import opened Bits
  import opened CText
  import opened CoreActions
  import opened Net

  // ----- The descriptor sets

  predicate RelayReadable(r: Relay) {
    (r.state == Opening || r.state == Active) && r.sockFd != -1
  }

  predicate RelayWritable(r: Relay) {
    r.state == RelayConnecting && r.sockFd != -1
  }

  predicate ConnReadable(n: State, i: nat) {
    n.Live(i) && n.ArgOk(i) && n.pool[i].transport != Connecting
  }

  predicate ConnWritable(n: State, i: nat) {
    n.Live(i) && n.ArgOk(i) && n.pool[i].transport == Connecting
  }

  /** The first r relays and the first c contexts that wait for data, and the two fixed sockets. */
  function ReadFds(n: State, r: nat, c: nat): set<int>
    requires r <= |n.relays| && c <= |n.pool|
  {
    {n.fixed.server, n.fixed.discovery}
    + (set j | 0 <= j < r && RelayReadable(n.relays[j]) :: n.relays[j].sockFd)
    + (set i | 0 <= i < c && ConnReadable(n, i) :: n.FdOf(i))
  }

  /** The first r relays and the first c contexts that wait for a connection to be made. */
  function WriteFds(n: State, r: nat, c: nat): set<int>
    requires r <= |n.relays| && c <= |n.pool|
  {
    (set j | 0 <= j < r && RelayWritable(n.relays[j]) :: n.relays[j].sockFd)
    + (set i | 0 <= i < c && ConnWritable(n, i) :: n.FdOf(i))
  }

  lemma {:induction false} NoneYet(n: State)
    ensures ReadFds(n, 0, 0) == {n.fixed.server, n.fixed.discovery} && WriteFds(n, 0, 0) == {}
  {
  }

  lemma {:induction false} OneMoreRelay(n: State, r: nat)
    requires r < |n.relays|
    ensures ReadFds(n, r + 1, 0) == ReadFds(n, r, 0) + (if RelayReadable(n.relays[r]) then {n.relays[r].sockFd} else {})
    ensures WriteFds(n, r + 1, 0) == WriteFds(n, r, 0) + (if RelayWritable(n.relays[r]) then {n.relays[r].sockFd} else {})
  {
  }

  lemma {:induction false} OneMoreContext(n: State, c: nat)
    requires c < |n.pool|
    ensures ReadFds(n, |n.relays|, c + 1) == ReadFds(n, |n.relays|, c) + (if ConnReadable(n, c) then {n.FdOf(c)} else {})
    ensures WriteFds(n, |n.relays|, c + 1) == WriteFds(n, |n.relays|, c) + (if ConnWritable(n, c) then {n.FdOf(c)} else {})
  {
  }

  predicate ReadOwner(n: State, o: Owner) {
    match o
    case Server => true
    case Discovery => true
    case Broadcast => false
    case Conn(i) => ConnReadable(n, i)
    case RelayOf(j) => j < |n.relays| && RelayReadable(n.relays[j])
  }

  predicate WriteOwner(n: State, o: Owner) {
    match o
    case Conn(i) => ConnWritable(n, i)
    case RelayOf(j) => j < |n.relays| && RelayWritable(n.relays[j])
    case _ => false
  }

  lemma {:induction false} ReadFdOwned(n: State, fd: int)
    requires n.Ok() && fd in ReadFds(n, |n.relays|, |n.pool|)
    ensures fd in n.owners && n.OwnerOk(fd) && ReadOwner(n, n.owners[fd])
  {
    hide State.BuffersOk, State.TargetsOk, State.MemoryOk;
    if fd != n.fixed.server && fd != n.fixed.discovery {
      if i :| 0 <= i < |n.pool| && ConnReadable(n, i) && n.FdOf(i) == fd {
        assert n.owners[fd] == Conn(i);
      } else {
        var j :| 0 <= j < |n.relays| && RelayReadable(n.relays[j]) && n.relays[j].sockFd == fd;
        assert n.relays[j].HasSocket();
      }
    }
  }

  lemma {:induction false} WriteFdOwned(n: State, fd: int)
    requires n.Ok() && fd in WriteFds(n, |n.relays|, |n.pool|)
    ensures fd in n.owners && n.OwnerOk(fd) && WriteOwner(n, n.owners[fd])
  {
    hide State.BuffersOk, State.TargetsOk, State.MemoryOk;
    if i :| 0 <= i < |n.pool| && ConnWritable(n, i) && n.FdOf(i) == fd {
      assert n.owners[fd] == Conn(i);
    } else {
      var j :| 0 <= j < |n.relays| && RelayWritable(n.relays[j]) && n.relays[j].sockFd == fd;
      assert n.relays[j].HasSocket();
    }
  }

  /** A descriptor is selected on for its one owner, for reading or for writing but never both. */
  lemma {:induction false} SelectSetsOk(n: State)
    requires n.Ok()
    ensures ReadFds(n, |n.relays|, |n.pool|) !! WriteFds(n, |n.relays|, |n.pool|)
    ensures forall fd | fd in ReadFds(n, |n.relays|, |n.pool|) || fd in WriteFds(n, |n.relays|, |n.pool|) ::
              fd >= 0 && fd in n.openFds
    ensures NoAcceptedIn(n, WriteFds(n, |n.relays|, |n.pool|))
  {
    hide State.RelaysOk, State.BuffersOk, ReadFds, WriteFds;
    forall fd | fd in ReadFds(n, |n.relays|, |n.pool|)
      ensures fd in n.owners && fd >= 0 && ReadOwner(n, n.owners[fd])
    {
      ReadFdOwned(n, fd);
    }
    forall fd | fd in WriteFds(n, |n.relays|, |n.pool|)
      ensures fd in n.owners && fd >= 0 && WriteOwner(n, n.owners[fd])
    {
      WriteFdOwned(n, fd);
    }
  }

  /** Every open socket is selected on for exactly what its owner waits for; those nobody owns are never selected on. */
  lemma {:induction false} SelectedForOwner(n: State, fd: int)
    requires n.Ok()
    ensures fd in ReadFds(n, |n.relays|, |n.pool|) <==>
            fd in n.owners &&
            match n.owners[fd]
            case Server => true
            case Discovery => true
            case Broadcast => false
            case Conn(i) => i < |n.pool| && n.pool[i].transport != Connecting
            case RelayOf(j) => j < |n.relays| && n.relays[j].state == Active
    ensures fd in WriteFds(n, |n.relays|, |n.pool|) <==>
            fd in n.owners &&
            match n.owners[fd]
            case Conn(i) => i < |n.pool| && n.pool[i].transport == Connecting
            case RelayOf(j) => j < |n.relays| && n.relays[j].state == RelayConnecting
            case _ => false
  {
    hide State.TargetsOk, State.BuffersOk;
    if fd in ReadFds(n, |n.relays|, |n.pool|) {
      ReadFdOwned(n, fd);
    }
    if fd in WriteFds(n, |n.relays|, |n.pool|) {
      WriteFdOwned(n, fd);
    }
  }

  /** No accepted connection (one without a remote address) has a descriptor in the set. */
  ghost predicate NoAcceptedIn(n: State, fds: set<int>) {
    forall i | 0 <= i < |n.pool| && n.Live(i) && n.ArgOk(i) ::
      n.heap[n.pool[i].sendArg.value].remote == Unset ==> n.FdOf(i) !in fds
  }

  lemma {:induction false} StepKeepsNoAccepted(n: State, a: Action, fds: set<int>)
    requires n.Ok() && NoAcceptedIn(n, fds)
    ensures NoAcceptedIn(Step(n, a), fds)
  {
    hide State.SocketsOk, State.TargetsOk, State.BuffersOk;
  }

  lemma {:induction false} RunKeepsNoAccepted(n: State, script: seq<Action>, fds: set<int>)
    requires n.Ok() && NoAcceptedIn(n, fds)
    ensures NoAcceptedIn(RunScript(n, script), fds)
  {
    hide State.Ok, Step, NoAcceptedIn;
    if script != [] {
      var front := script[..|script| - 1];
      RunOk(n, front);
      RunKeepsNoAccepted(n, front, fds);
      StepKeepsNoAccepted(RunScript(n, front), script[|script| - 1], fds);
    }
  }

  /** A connection whose descriptor was selected for writing is retried with the address it was opened with. */
  lemma {:induction false} RetryAddress(n: State, i: nat, fds: set<int>)
    requires n.Ok() && NoAcceptedIn(n, fds) && n.Live(i) && n.ArgOk(i) && n.FdOf(i) in fds
    ensures n.heap[n.pool[i].sendArg.value].remote == n.targets[i] != Unset
  {
    hide State.SocketsOk, State.BuffersOk, State.RelaysOk;
  }

  /** A connecting relay has an open socket of its own and can send; a lone one is retried at the address last dialed. */
  lemma {:induction false} ConnectingRelay(n: State, j: nat)
    requires n.Ok() && j < |n.relays| && n.relays[j].state == RelayConnecting
    ensures n.relays[j].sockFd >= 0 && n.relays[j].sockFd in n.openFds && n.relays[j].sendInstalled
    ensures n.owners[n.relays[j].sockFd] == RelayOf(j)
    ensures |n.relays| == 1 ==> n.relayIp == n.dialed[j]
  {
    hide State.TargetsOk, State.BuffersOk;
  }

  /**
   * The address of the retry is shared by all relays: a connecting relay is retried at its own
   * address exactly when the relay opened last was given the same one.
   */
  lemma {:induction false} RelaysShareOneAddress(n: State, j: nat)
    requires n.Ok() && j < |n.relays| && n.relays[j].state == RelayConnecting
    ensures |n.dialed| == |n.relays| && n.lastOpener.Some? && n.lastOpener.value < |n.dialed|
    ensures n.relayIp == n.dialed[j] <==> n.dialed[n.lastOpener.value] == n.dialed[j]
  {
    hide State.MemoryOk, State.SocketsOk, State.TargetsOk, State.BuffersOk;
  }

  // ----- Books

  function LiveSet(n: State): set<nat> {
    set i | 0 <= i < |n.pool| && n.Live(i)
  }

  function ArgsOf(n: State, s: set<nat>): set<nat> {
    set i | i in s && n.Live(i) :: n.pool[i].sendArg.value
  }

  lemma {:induction false} ArgOfItsOwn(n: State, s: set<nat>, x: nat)
    requires n.MemoryOk() && x in s && n.Live(x)
    ensures n.pool[x].sendArg.value !in ArgsOf(n, s - {x})
  {
  }

  lemma {:induction false} ArgsAreDistinct(n: State, s: set<nat>)
    requires n.MemoryOk() && forall i | i in s :: n.Live(i)
    ensures |ArgsOf(n, s)| == |s|
  {
    if s != {} {
      var x :| x in s;
      ArgsAreDistinct(n, s - {x});
      ArgOfItsOwn(n, s, x);
      hide State.MemoryOk;
      assert ArgsOf(n, s) == ArgsOf(n, s - {x}) + {n.pool[x].sendArg.value};
    }
  }

  /** The live send_args are those of the contexts in use plus the lost ones. */
  lemma {:induction false} HeapCount(n: State)
    requires n.MemoryOk()
    ensures |n.heap| == |LiveSet(n)| + |n.leaked|
  {
    var used := ArgsOf(n, LiveSet(n));
    forall a | a in n.heap
      ensures a in used || a in n.leaked
    {
      if a !in n.leaked {
        var i :| 0 <= i < |n.pool| && n.Live(i) && n.pool[i].sendArg.value == a;
        assert i in LiveSet(n);
      }
    }
    assert n.heap.Keys == used + n.leaked && used !! n.leaked;
    ArgsAreDistinct(n, LiveSet(n));
  }

  /** The block an action loses: wish_open_connection keeps none when socket() fails. */
  function BlocksLostBy(n: State, a: Action): nat {
    if a.OpenConnection? && a.sock < 0 && Allowed(n, a) then 1 else 0
  }

  /**
   * The sockets an action loses: the one a relay has when it is opened anew, and the new one unless
   * its connect just started (an immediate success loses it too).
   */
  function SocketsLostBy(n: State, a: Action): nat {
    if a.OpenRelay? && Allowed(n, a) then
      (if n.relays[a.j].HasSocket() then 1 else 0) + (if a.host.Some? && a.sock >= 0 && a.ret != Already then 1 else 0)
    else 0
  }

  /** The blocks a script loses. */
  function FailedOpens(n: State, script: seq<Action>): nat {
    if script == [] then 0
    else
      var front := script[..|script| - 1];
      FailedOpens(n, front) + BlocksLostBy(RunScript(n, front), script[|script| - 1])
  }

  /** The sockets a script loses. */
  function StrayOpens(n: State, script: seq<Action>): nat {
    if script == [] then 0
    else
      var front := script[..|script| - 1];
      StrayOpens(n, front) + SocketsLostBy(RunScript(n, front), script[|script| - 1])
  }

  /** The books of m are those of n with that many blocks and sockets lost in addition. */
  ghost predicate Lost(n: State, m: State, blocks: nat, sockets: nat) {
    && n.leaked <= m.leaked && |m.leaked| == |n.leaked| + blocks
    && n.stray <= m.stray && |m.stray| == |n.stray| + sockets
  }

  lemma LostThen(n: State, m: State, o: State, b: nat, s: nat, b': nat, s': nat)
    requires Lost(n, m, b, s) && Lost(m, o, b', s')
    ensures Lost(n, o, b + b', s + s')
  {
  }

  lemma LostAreKnown(n: State)
    requires n.Ok()
    ensures n.leaked <= n.heap.Keys && n.stray <= n.openFds
    ensures forall j | 0 <= j < |n.relays| && n.relays[j].HasSocket() :: n.relays[j].sockFd in n.openFds - n.stray
  {
  }

  lemma {:induction false} OpenConnectionAccounts(n: State, a: Action)
    requires n.leaked <= n.heap.Keys && a.OpenConnection?
    ensures Lost(n, Step(n, a), BlocksLostBy(n, a), 0)
  {
  }

  lemma {:induction false} OpenRelayAccounts(n: State, a: Action)
    requires n.stray <= n.openFds && a.OpenRelay?
    requires forall j | 0 <= j < |n.relays| && n.relays[j].HasSocket() :: n.relays[j].sockFd in n.openFds - n.stray
    ensures Lost(n, Step(n, a), 0, SocketsLostBy(n, a))
  {
    if Allowed(n, a) {
      var m := n.Abandon(a.j);
      assert Lost(n, m, 0, if n.relays[a.j].HasSocket() then 1 else 0);
      assert m.openFds == n.openFds;
      assert Lost(m, Step(n, a), 0, if a.host.Some? && a.sock >= 0 && a.ret != Already then 1 else 0);
    }
  }

  lemma {:induction false} OtherActionAccounts(n: State, a: Action)
    requires !a.OpenConnection? && !a.OpenRelay?
    ensures Lost(n, Step(n, a), 0, 0)
  {
  }

  lemma {:induction false} StepAccounts(n: State, a: Action)
    requires n.Ok()
    ensures Lost(n, Step(n, a), BlocksLostBy(n, a), SocketsLostBy(n, a))
  {
    hide State.Ok, Lost, Step, Allowed;
    LostAreKnown(n);
    if a.OpenConnection? {
      OpenConnectionAccounts(n, a);
    } else if a.OpenRelay? {
      OpenRelayAccounts(n, a);
    } else {
      OtherActionAccounts(n, a);
    }
  }

  /**
   * Over every run of the core: each failed socket() in an open loses one block, and a relay
   * open loses the sockets `SocketsLostBy` tells; nothing else is ever lost, and nothing lost is
   * ever found.
   */
  lemma {:induction false} RunAccounts(n: State, script: seq<Action>)
    requires n.Ok()
    ensures Lost(n, RunScript(n, script), FailedOpens(n, script), StrayOpens(n, script))
  {
    if script != [] {
      hide State.Ok, Step, Lost, BlocksLostBy, SocketsLostBy;
      var front, a := script[..|script| - 1], script[|script| - 1];
      var m := RunScript(n, front);
      RunOk(n, front);
      RunAccounts(n, front);
      StepAccounts(m, a);
      LostThen(n, m, Step(m, a), FailedOpens(n, front), StrayOpens(n, front), BlocksLostBy(m, a), SocketsLostBy(m, a));
    }
  }

  // ----- Where connections are opened to

  /** wish_open_connection was called for context i with this address, and there was a socket. */
  datatype OpenedTo = OpenedTo(i: nat, remote: Remote)

  function OpenBy(n: State, a: Action): seq<OpenedTo> {
    if a.OpenConnection? && a.sock >= 0 && Allowed(n, a) then [OpenedTo(a.i, Remote(a.ip, a.port))] else []
  }

  /** The opens of a script, oldest first. */
  function OpensOf(n: State, script: seq<Action>): seq<OpenedTo> {
    if script == [] then []
    else
      var front := script[..|script| - 1];
      OpensOf(n, front) + OpenBy(RunScript(n, front), script[|script| - 1])
  }

  /** For each context the address of its last open, or the earlier one when there was none. */
  function Retarget(ts: seq<Remote>, opens: seq<OpenedTo>): (r: seq<Remote>)
    ensures |r| == |ts|
  {
    if opens == [] then ts
    else
      var r, o := Retarget(ts, opens[..|opens| - 1]), opens[|opens| - 1];
      if o.i < |r| then r[o.i := o.remote] else r
  }

  lemma {:induction false} RetargetThen(ts: seq<Remote>, a: seq<OpenedTo>, b: seq<OpenedTo>)
    ensures Retarget(ts, a + b) == Retarget(Retarget(ts, a), b)
  {
    if b == [] {
      assert a + b == a;
    } else {
      assert (a + b)[..|a + b| - 1] == a + b[..|b| - 1];
      RetargetThen(ts, a, b[..|b| - 1]);
    }
  }

  /** The address of an open of context i that no other open of it follows. */
  lemma {:induction false} RetargetIsLastOpen(ts: seq<Remote>, opens: seq<OpenedTo>, i: nat, k: nat)
    requires i < |ts| && k < |opens| && opens[k].i == i && forall l | k < l < |opens| :: opens[l].i != i
    ensures Retarget(ts, opens)[i] == opens[k].remote
  {
    if k < |opens| - 1 {
      RetargetIsLastOpen(ts, opens[..|opens| - 1], i, k);
    }
  }

  lemma {:induction false} RetargetWithoutOpen(ts: seq<Remote>, opens: seq<OpenedTo>, i: nat)
    requires i < |ts| && forall k | 0 <= k < |opens| :: opens[k].i != i
    ensures Retarget(ts, opens)[i] == ts[i]
  {
    if opens != [] {
      RetargetWithoutOpen(ts, opens[..|opens| - 1], i);
    }
  }

  lemma {:induction false} StepTargets(n: State, a: Action)
    ensures Step(n, a).targets == Retarget(n.targets, OpenBy(n, a))
  {
    var opens := OpenBy(n, a);
    if opens != [] {
      assert opens[..0] == [];
      assert Retarget(n.targets, opens[..0]) == n.targets;
    }
  }

  lemma {:induction false} RunTargets(n: State, script: seq<Action>)
    ensures RunScript(n, script).targets == Retarget(n.targets, OpensOf(n, script))
  {
    hide Step, Retarget, OpenBy;
    if script == [] {
      NoOpens(n.targets);
    } else {
      var front, a := script[..|script| - 1], script[|script| - 1];
      RunTargets(n, front);
      StepTargets(RunScript(n, front), a);
      RetargetThen(n.targets, OpensOf(n, front), OpenBy(RunScript(n, front), a));
    }
  }

  lemma NoOpens(ts: seq<Remote>)
    ensures Retarget(ts, []) == ts
  {
  }

  /** After any run of the core, a connection still to be made goes to the address of the last open of its context. */
  lemma {:induction false} ConnectingToLastOpen(n: State, script: seq<Action>, i: nat)
    requires n.Ok()
    ensures var m := RunScript(n, script);
            m.Live(i) && m.pool[i].transport == Connecting ==>
              m.ArgOk(i) && i < |n.targets|
              && m.heap[m.pool[i].sendArg.value].remote == Retarget(n.targets, OpensOf(n, script))[i]
  {
    hide State.Ok, RunScript, OpensOf, Retarget;
    RunOk(n, script);
    RunTargets(n, script);
    ConnectingToTarget(RunScript(n, script), i);
  }

  lemma {:induction false} ConnectingToTarget(n: State, i: nat)
    requires n.Ok()
    ensures |n.targets| == |n.pool|
    ensures n.Live(i) && n.pool[i].transport == Connecting ==>
              n.ArgOk(i) && n.heap[n.pool[i].sendArg.value].remote == n.targets[i]
  {
    hide State.SocketsOk, State.BuffersOk, State.RelaysOk;
  }

  // ----- The two hazards

  /** The action gets the descriptor fd from socket(). */
  predicate Gets(n: State, a: Action, fd: int) {
    Allowed(n, a) && fd >= 0 &&
    match a
    case OpenConnection(_, _, _, _, sock, _) => sock == fd
    case OpenRelay(_, host, sock, _) => host.Some? && sock == fd
    case _ => false
  }

  /** The action closes fd. */
  predicate GivesUp(n: State, a: Action, fd: int) {
    Allowed(n, a) &&
    match a
    case CloseConnection(i) => n.FdOf(i) == fd
    case CloseRelay(j) => n.relays[j].sockFd == fd
    case _ => false
  }

  lemma {:induction false} StepOpenFds(n: State, a: Action, fd: int)
    requires fd >= 0
    ensures fd in Step(n, a).openFds <==> Gets(n, a, fd) || (fd in n.openFds && !GivesUp(n, a, fd))
  {
  }

  /** Some action of the script got fd, and no later one closed it. */
  ghost predicate GotAndKept(n: State, script: seq<Action>, fd: int) {
    exists k | 0 <= k < |script| ::
      && Gets(RunScript(n, script[..k]), script[k], fd)
      && KeptFrom(n, script, k + 1, fd)
  }

  ghost predicate KeptFrom(n: State, script: seq<Action>, k: nat, fd: int) {
    forall l | k <= l < |script| :: !GivesUp(RunScript(n, script[..l]), script[l], fd)
  }

  /** A descriptor not open before a script is open after it exactly when the script got and kept it. */
  lemma {:induction false} OpenAfterScript(n: State, script: seq<Action>, fd: int)
    requires fd >= 0 && fd !in n.openFds
    ensures fd in RunScript(n, script).openFds <==> GotAndKept(n, script, fd)
  {
    hide Step, Gets, GivesUp;
    if script != [] {
      var last := |script| - 1;
      var front, a := script[..last], script[last];
      var m := RunScript(n, front);
      OpenAfterScript(n, front, fd);
      StepOpenFds(m, a, fd);
      assert forall k | 0 <= k <= last :: front[..k] == script[..k];
      if GotAndKept(n, front, fd) && !GivesUp(m, a, fd) {
        var k :| 0 <= k < |front| && Gets(RunScript(n, front[..k]), front[k], fd) && KeptFrom(n, front, k + 1, fd);
        KeptLonger(n, script, k + 1, fd);
        assert Gets(RunScript(n, script[..k]), script[k], fd);
      }
      if Gets(m, a, fd) {
        assert KeptFrom(n, script, last + 1, fd);
        assert Gets(RunScript(n, script[..last]), script[last], fd);
      }
      if k :| 0 <= k < |script| && Gets(RunScript(n, script[..k]), script[k], fd) && KeptFrom(n, script, k + 1, fd) && k < last {
        KeptShorter(n, script, k + 1, fd);
        assert Gets(RunScript(n, front[..k]), front[k], fd);
      }
    }
  }

  lemma {:induction false} KeptLonger(n: State, script: seq<Action>, k: nat, fd: int)
    requires script != [] && KeptFrom(n, script[..|script| - 1], k, fd)
    requires !GivesUp(RunScript(n, script[..|script| - 1]), script[|script| - 1], fd)
    ensures KeptFrom(n, script, k, fd)
  {
    hide RunScript, GivesUp;
    var front := script[..|script| - 1];
    forall l | k <= l < |script|
      ensures !GivesUp(RunScript(n, script[..l]), script[l], fd)
    {
      if l < |front| {
        assert front[..l] == script[..l];
        assert !GivesUp(RunScript(n, front[..l]), front[l], fd);
      }
    }
  }

  lemma {:induction false} KeptShorter(n: State, script: seq<Action>, k: nat, fd: int)
    requires k < |script| && KeptFrom(n, script, k, fd)
    ensures KeptFrom(n, script[..|script| - 1], k, fd)
    ensures !GivesUp(RunScript(n, script[..|script| - 1]), script[|script| - 1], fd)
  {
    hide RunScript, GivesUp;
    var front := script[..|script| - 1];
    forall l | k <= l < |front|
      ensures !GivesUp(RunScript(n, front[..l]), front[l], fd)
    {
      assert front[..l] == script[..l];
      assert !GivesUp(RunScript(n, script[..l]), script[l], fd);
    }
  }

  /** close(fd) on a descriptor the program gave up before. */
  function CloseAgain(n: State, fd: int): State {
    n.(openFds := n.openFds - {fd})
  }

  lemma {:induction false} CloseAgainOk(n: State, fd: int)
    requires n.Ok()
    ensures CloseAgain(n, fd).Ok() <==> fd !in n.openFds
    ensures fd !in n.openFds ==> CloseAgain(n, fd) == n
  {
    var m := CloseAgain(n, fd);
    if fd !in n.openFds {
      assert m.openFds == n.openFds;
      assert m == n;
    } else {
      assert fd !in m.openFds && fd in m.owners.Keys + m.stray;
    }
  }

  /**
   * connect_fail_cb closes the socket of context i, the core reacts, and the caller closes the same
   * number again. That is harmless exactly when none of the sockets the core opened meanwhile
   * was given that number and kept it.
   */
  lemma {:induction false} SecondCloseExact(n: State, i: nat, script: seq<Action>)
    requires n.Ok() && n.Live(i)
    ensures n.ArgOk(i)
    ensures CloseAgain(RunScript(n.Drop(i), script), n.FdOf(i)).Ok() <==> !GotAndKept(n.Drop(i), script, n.FdOf(i))
  {
    hide State.Ok, RunScript, GotAndKept, CloseAgain;
    LiveFd(n, i);
    DropOk(n, i);
    RunOk(n.Drop(i), script);
    OpenAfterScript(n.Drop(i), script, n.FdOf(i));
    CloseAgainOk(RunScript(n.Drop(i), script), n.FdOf(i));
  }

  /**
   * How the number comes to be reused: the core, told of the failure, opens the freed context
   * again and the socket layer gives it the number just closed. After the second close that
   * context is served with a descriptor that is not open.
   */
  lemma {:induction false} SecondCloseHitsNewConnection(n: State, i: nat, ip: Ip, port: nat, addr: nat)
    requires n.Ok() && n.Live(i) && n.ArgOk(i) && addr !in n.heap
    ensures var fd := n.FdOf(i);
            var script := [InitContext(i, false), OpenConnection(i, ip, port, addr, fd, Already)];
            var m := CloseAgain(RunScript(n.Drop(i), script), fd);
            m.Live(i) && m.ArgOk(i) && m.FdOf(i) == fd && fd !in m.openFds
  {
    hide State.BuffersOk, State.RelaysOk;
    var fd := n.FdOf(i);
    var script := [InitContext(i, false), OpenConnection(i, ip, port, addr, fd, Already)];
    var a := n.Drop(i);
    DropOk(n, i);
    assert script[..1] == [script[0]] && script[..1][..0] == [];
    assert RunScript(a, script[..0]) == a;
    assert RunScript(a, script[..1]) == Step(a, script[0]) == Initialised(a, i, false);
    assert Allowed(Initialised(a, i, false), script[1]);
  }

  /** wish_connection_init and the registration of an accepted socket, whatever accept returned. */
  function Accepted(n: State, i: nat, addr: nat, newSock: int): State
    requires i < |n.pool|
  {
    Initialised(n, i, false).Attach(i, addr, SendArg(newSock, Unset), OtherTransport)
  }

  /** A failed accept is only printed; it is harmless exactly when its result is a descriptor after all. */
  lemma {:induction false} AcceptExact(n: State, i: nat, addr: nat, newSock: int)
    requires n.Ok() && i < |n.pool| && n.pool[i].state == Free && addr !in n.heap
    requires newSock < 0 || newSock !in n.openFds
    ensures Accepted(n, i, addr, newSock).Ok() <==> newSock >= 0
    ensures newSock in ReadFds(Accepted(n, i, addr, newSock), |n.relays|, |n.pool|)
  {
    hide State.BuffersOk, State.RelaysOk, State.MemoryOk, State.TargetsOk;
    var b := Initialised(n, i, false);
    var m := Accepted(n, i, addr, newSock);
    SetContextOk(n, i, b.pool[i]);
    assert ConnReadable(m, i) && m.FdOf(i) == newSock;
    if newSock >= 0 {
      AttachOk(b, i, addr, SendArg(newSock, Unset), OtherTransport);
    } else {
      assert newSock in m.owners && !m.OwnerOk(newSock);
    }
  }
}
