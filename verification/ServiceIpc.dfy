/**
 * source/mist_port/port_service_ipc.c: the service IPC queue as a singly linked list of
 * allocated nodes that own copies of their payloads. Proved to behave as an
 * `IpcQueue.Queue`, with every block accounted for.
 */
module ServiceIpc {
  import opened Bits
  import opened CText
  import opened IpcQueue

  datatype EventType = EventUnknown | EventAppToCore | EventCoreToApp

  function TypeOf(dir: Direction): EventType {
    match dir case AppToCore => EventAppToCore case CoreToApp => EventCoreToApp
  }

  /** struct ipc_event; fresh from malloc it has no meaningful contents. */
  class IpcEvent {
    var eventType: EventType
    var app: App
    var data: array?<byte>
    var len: nat
    var next: IpcEvent?

    constructor ()
    {
      eventType, app, data, len, next := EventUnknown, App(0, []), null, 0, null;
    }
  }

  /** What a sender passes in, and whether malloc gives it the two blocks. */
  datatype Request = Request(dir: Direction, wsid: seq<byte>, payload: seq<byte>, eventAlloc: bool, dataAlloc: bool) {
    predicate Accepted() {
      eventAlloc && dataAlloc
    }
  }

  /** wish_app_find_by_wsid over the registered apps. */
  function Find(apps: seq<App>, wsid: seq<byte>): (r: Option<App>)
    ensures r.Some? <==> exists a :: a in apps && a.wsid == wsid
    ensures r.Some? ==> r.value in apps && r.value.wsid == wsid
  {
    if apps == [] then None
    else if apps[0].wsid == wsid then Some(apps[0])
    else Find(apps[1..], wsid)
  }

  /** The message a request amounts to; its wsid must name a registered app. */
  function MessageOf(apps: seq<App>, r: Request): Message
    requires Find(apps, r.wsid).Some?
  {
    Message(r.dir, Find(apps, r.wsid).value, r.payload)
  }

  lemma HeadOf(head: IpcEvent?, nodes: seq<IpcEvent>)
    requires Chain(head, nodes)
    ensures head == if nodes == [] then null else nodes[0]
  {
  }

  lemma HoldsHead(nodes: seq<IpcEvent>, bufs: seq<array<byte>>, ms: seq<Message>)
    requires Filled(nodes, bufs, ms) && nodes != []
    ensures |bufs| == |ms| == |nodes| && Holds(nodes[0], bufs[0], ms[0]) && nodes[0].data == bufs[0]
  {
  }

  /** What reaches the receiver: the core is told the sender's wsid, an app is called itself. */
  datatype Delivery = ToCore(wsid: seq<byte>, data: seq<byte>) | ToApp(app: App, data: seq<byte>)

  function DeliveryOf(m: Message): Delivery {
    match m.dir case AppToCore => ToCore(m.app.wsid, m.data) case CoreToApp => ToApp(m.app, m.data)
  }

  /** The one receiver a message is meant for, with what it is told. */
  predicate ReachesReceiver(d: Delivery, m: Message) {
    match d
    case ToCore(wsid, data) => m.dir == AppToCore && wsid == m.app.wsid && data == m.data
    case ToApp(app, data) => m.dir == CoreToApp && app == m.app && data == m.data
  }

  /**
   * Told from the request: a message to the core reaches the core with the sender's wsid, a message to an
   * app reaches the registered app of that wsid, and either carries the payload of the request.
   */
  lemma DeliveredAsRequested(apps: seq<App>, r: Request)
    requires Find(apps, r.wsid).Some?
    ensures var d := DeliveryOf(MessageOf(apps, r));
            && ReachesReceiver(d, MessageOf(apps, r))
            && (r.dir == AppToCore ==> d == ToCore(r.wsid, r.payload))
            && (r.dir == CoreToApp ==> d.ToApp? && d.app in apps && d.app.wsid == r.wsid && d.data == r.payload)
  {
  }

  predicate Registered(apps: seq<App>, rs: seq<Request>) {
    forall i | 0 <= i < |rs| :: Find(apps, rs[i].wsid).Some?
  }

  /** The messages of those requests that get their memory. */
  function AcceptedOf(apps: seq<App>, rs: seq<Request>): seq<Message>
    requires Registered(apps, rs)
  {
    if rs == [] then []
    else
      var front, last := rs[..|rs| - 1], rs[|rs| - 1];
      AcceptedOf(apps, front) + (if last.Accepted() then [MessageOf(apps, last)] else [])
  }

  /** How many requests get a node but no payload buffer. */
  function HalfAllocated(rs: seq<Request>): nat {
    if rs == [] then 0
    else HalfAllocated(rs[..|rs| - 1]) + (if rs[|rs| - 1].eventAlloc && !rs[|rs| - 1].dataAlloc then 1 else 0)
  }

  ghost predicate Blocks(nodes: seq<IpcEvent>, bufs: seq<array<byte>>, live: set<object>, abandoned: set<IpcEvent>)
  {
    && |nodes| == |bufs|
    && (forall i | 0 <= i < |nodes| :: nodes[i] in live && bufs[i] in live)
    && Distinct(nodes) && Distinct(bufs)
    && (forall n | n in abandoned :: n in live && n !in nodes)
  }

  ghost predicate Distinct<T>(s: seq<T>) {
    forall i, j | 0 <= i < j < |s| :: s[i] != s[j]
  }

  function NodeAt(nodes: seq<IpcEvent>, i: nat): IpcEvent? {
    if i < |nodes| then nodes[i] else null
  }

  /** The list hangs together: it starts at `head`, visits the nodes in order and ends in null. */
  ghost predicate Chain(head: IpcEvent?, nodes: seq<IpcEvent>)
    reads nodes`next
  {
    && head == NodeAt(nodes, 0)
    && forall i | 0 <= i < |nodes| :: nodes[i].next == NodeAt(nodes, i + 1)
  }

  /** The node carries the message under one of the two valid types and owns the buffer with its payload. */
  ghost predicate Holds(n: IpcEvent, buf: array<byte>, m: Message)
    reads n`eventType, n`app, n`data, n`len, buf
  {
    n.eventType == TypeOf(m.dir) && n.app == m.app && n.data == buf && n.len == buf.Length && buf[..] == m.data
  }

  /** Every node holds its message. */
  ghost predicate Filled(nodes: seq<IpcEvent>, bufs: seq<array<byte>>, ms: seq<Message>)
    reads nodes`eventType, nodes`app, nodes`data, nodes`len, bufs
  {
    |nodes| == |bufs| == |ms| && forall i | 0 <= i < |nodes| :: Holds(nodes[i], bufs[i], ms[i])
  }

  lemma FilledAppend(nodes: seq<IpcEvent>, bufs: seq<array<byte>>, ms: seq<Message>,
                     node: IpcEvent, buf: array<byte>, m: Message)
    requires Filled(nodes, bufs, ms) && Holds(node, buf, m)
    ensures Filled(nodes + [node], bufs + [buf], ms + [m])
  {
  }

  lemma FilledWithout(nodes: seq<IpcEvent>, bufs: seq<array<byte>>, ms: seq<Message>, k: nat)
    requires Filled(nodes, bufs, ms) && k < |nodes|
    ensures Filled(Without(nodes, k), Without(bufs, k), Without(ms, k))
  {
  }

  function Without<T>(s: seq<T>, k: nat): seq<T>
    requires k < |s|
  {
    s[..k] + s[k + 1..]
  }

  lemma WithoutFirst<T>(s: seq<T>)
    requires s != []
    ensures Without(s, 0) == s[1..]
  {
  }

  lemma BlocksAppend(nodes: seq<IpcEvent>, bufs: seq<array<byte>>, live: set<object>, abandoned: set<IpcEvent>,
                     node: IpcEvent, buf: array<byte>)
    requires Blocks(nodes, bufs, live, abandoned)
    requires node in live && buf in live && node !in nodes && buf !in bufs && node !in abandoned
    ensures Blocks(nodes + [node], bufs + [buf], live, abandoned)
  {
  }

  lemma BlocksGrow(nodes: seq<IpcEvent>, bufs: seq<array<byte>>, live: set<object>, abandoned: set<IpcEvent>, o: object)
    requires Blocks(nodes, bufs, live, abandoned)
    ensures Blocks(nodes, bufs, live + {o}, abandoned)
    ensures o is IpcEvent && o !in nodes ==> Blocks(nodes, bufs, live + {o}, abandoned + {o as IpcEvent})
    ensures o !in live ==> o !in nodes && o !in bufs && o !in abandoned
  {
  }

  lemma BlocksWithout(nodes: seq<IpcEvent>, bufs: seq<array<byte>>, live: set<object>, abandoned: set<IpcEvent>, k: nat)
    requires Blocks(nodes, bufs, live, abandoned) && k < |nodes|
    ensures Blocks(Without(nodes, k), Without(bufs, k), live - {nodes[k], bufs[k]}, abandoned)
    ensures nodes[k] !in Without(nodes, k) && bufs[k] !in Without(bufs, k)
    ensures nodes[k] in live && bufs[k] in live && Distinct(nodes)
  {
  }

  lemma NoReply(apps: seq<App>, q: Queue)
    ensures q.SendAll(AcceptedOf(apps, [])) == q && HalfAllocated([]) == 0
  {
    assert q.pending + [] == q.pending && q.accepted + [] == q.accepted;
  }

  lemma {:induction false} OneMoreReply(apps: seq<App>, rs: seq<Request>, k: nat, q: Queue)
    requires Registered(apps, rs) && k < |rs|
    ensures var upTo, m := AcceptedOf(apps, rs[..k]), MessageOf(apps, rs[k]);
            q.SendAll(AcceptedOf(apps, rs[..k + 1]))
            == if rs[k].Accepted() then q.SendAll(upTo).Send(m) else q.SendAll(upTo)
    ensures HalfAllocated(rs[..k + 1])
         == HalfAllocated(rs[..k]) + (if rs[k].eventAlloc && !rs[k].dataAlloc then 1 else 0)
  {
    hide Find, MessageOf;
    assert rs[..k + 1][..k] == rs[..k];
    var upTo := AcceptedOf(apps, rs[..k]);
    assert forall s: seq<Message>, m: Message :: s + upTo + [m] == s + (upTo + [m]);
  }

  /** One call of a run: a send, or a task call with what its receiver sends. */
  datatype Call = SendCall(r: Request) | TaskCall(replies: seq<Request>)

  predicate OneRegistered(apps: seq<App>, call: Call) {
    match call
    case SendCall(r) => Find(apps, r.wsid).Some?
    case TaskCall(rs) => Registered(apps, rs)
  }

  predicate AllRegistered(apps: seq<App>, calls: seq<Call>) {
    forall k | 0 <= k < |calls| :: OneRegistered(apps, calls[k])
  }

  /** What a call adds to a queue with that many messages waiting; on an empty one no receiver runs. */
  function Adds(apps: seq<App>, call: Call, waiting: nat): seq<Message>
    requires OneRegistered(apps, call)
  {
    match call
    case SendCall(r) => if r.Accepted() then [MessageOf(apps, r)] else []
    case TaskCall(rs) => if waiting == 0 then [] else AcceptedOf(apps, rs)
  }

  /** What it takes out. */
  function Takes(call: Call, waiting: nat): (t: nat)
    ensures t <= waiting
  {
    if call.TaskCall? && waiting > 0 then 1 else 0
  }

  /** How many of its sends get a node but no payload buffer. */
  function Abandons(call: Call, waiting: nat): nat {
    match call
    case SendCall(r) => if r.eventAlloc && !r.dataAlloc then 1 else 0
    case TaskCall(rs) => if waiting == 0 then 0 else HalfAllocated(rs)
  }

  /** How many messages wait after a run, told from the requests alone. */
  function WaitingAfter(apps: seq<App>, calls: seq<Call>, waiting: nat): nat
    requires AllRegistered(apps, calls)
  {
    if calls == [] then waiting
    else
      var w, call := WaitingAfter(apps, calls[..|calls| - 1], waiting), calls[|calls| - 1];
      w + |Adds(apps, call, w)| - Takes(call, w)
  }

  /** The messages of a run that get their memory, in the order of the sends. */
  function Sent(apps: seq<App>, calls: seq<Call>, waiting: nat): seq<Message>
    requires AllRegistered(apps, calls)
  {
    if calls == [] then []
    else
      var front := calls[..|calls| - 1];
      Sent(apps, front, waiting) + Adds(apps, calls[|calls| - 1], WaitingAfter(apps, front, waiting))
  }

  /** One accepted request among others adds its message in its place. */
  lemma {:induction false} AcceptedOfThen(apps: seq<App>, a: seq<Request>, b: seq<Request>)
    requires Registered(apps, a + b)
    ensures Registered(apps, a) && Registered(apps, b)
    ensures AcceptedOf(apps, a + b) == AcceptedOf(apps, a) + AcceptedOf(apps, b)
  {
    hide Find, MessageOf;
    assert forall i | 0 <= i < |a| :: (a + b)[i] == a[i];
    assert forall i | 0 <= i < |b| :: (a + b)[|a| + i] == b[i];
    if b == [] {
      assert a + b == a;
    } else {
      assert (a + b)[..|a + b| - 1] == a + b[..|b| - 1];
      AcceptedOfThen(apps, a, b[..|b| - 1]);
    }
  }

  /** A run in two parts: the second sends its messages after those of the first, from what that one leaves waiting. */
  lemma {:induction false} SentThen(apps: seq<App>, a: seq<Call>, b: seq<Call>, waiting: nat)
    requires AllRegistered(apps, a + b)
    ensures AllRegistered(apps, a) && AllRegistered(apps, b)
    ensures var w := WaitingAfter(apps, a, waiting);
            && Sent(apps, a + b, waiting) == Sent(apps, a, waiting) + Sent(apps, b, w)
            && WaitingAfter(apps, a + b, waiting) == WaitingAfter(apps, b, w)
  {
    hide OneRegistered, Adds, Takes;
    assert forall i | 0 <= i < |a| :: (a + b)[i] == a[i];
    assert forall i | 0 <= i < |b| :: (a + b)[|a| + i] == b[i];
    if b == [] {
      assert a + b == a;
    } else {
      assert (a + b)[..|a + b| - 1] == a + b[..|b| - 1];
      SentThen(apps, a, b[..|b| - 1], waiting);
    }
  }

  /**
   * What one request of a run contributes: a send adds the message asked for when it gets both its blocks,
   * and nothing otherwise; so does each request a receiver makes, provided that a message waits for
   * it to run at all.
   */
  lemma {:induction false} OneRequestSent(apps: seq<App>, r: Request, waiting: nat)
    requires Find(apps, r.wsid).Some?
    ensures var app := Find(apps, r.wsid).value;
            var ms := if r.eventAlloc && r.dataAlloc then [Message(r.dir, app, r.payload)] else [];
            && app in apps && app.wsid == r.wsid
            && Sent(apps, [SendCall(r)], waiting) == ms && AcceptedOf(apps, [r]) == ms
            && forall rs | Registered(apps, rs) ::
                 Sent(apps, [TaskCall(rs)], waiting) == if waiting == 0 then [] else AcceptedOf(apps, rs)
  {
    hide Find;
    var sends, none := [SendCall(r)], [r][..0];
    assert sends[..0] == [] && none == [];
    assert Sent(apps, sends[..0], waiting) == [] && AcceptedOf(apps, none) == [];
    forall rs | Registered(apps, rs)
      ensures Sent(apps, [TaskCall(rs)], waiting) == if waiting == 0 then [] else AcceptedOf(apps, rs)
    {
      var tasks := [TaskCall(rs)];
      assert tasks[..0] == [];
      assert Sent(apps, tasks[..0], waiting) == [];
    }
  }

  /** The task calls of a run that find a message. */
  function Dispatches(apps: seq<App>, calls: seq<Call>, waiting: nat): nat
    requires AllRegistered(apps, calls)
  {
    if calls == [] then 0
    else
      var front := calls[..|calls| - 1];
      Dispatches(apps, front, waiting) + Takes(calls[|calls| - 1], WaitingAfter(apps, front, waiting))
  }

  /** The sends of a run that get a node but no payload buffer. */
  function AbandonedIn(apps: seq<App>, calls: seq<Call>, waiting: nat): nat
    requires AllRegistered(apps, calls)
  {
    if calls == [] then 0
    else
      var front := calls[..|calls| - 1];
      AbandonedIn(apps, front, waiting) + Abandons(calls[|calls| - 1], WaitingAfter(apps, front, waiting))
  }

  function DeliveriesOf(ms: seq<Message>): (ds: seq<Delivery>)
    ensures |ds| == |ms| && forall k | 0 <= k < |ms| :: ReachesReceiver(ds[k], ms[k])
  {
    seq(|ms|, k requires 0 <= k < |ms| => DeliveryOf(ms[k]))
  }

  /** The step of the abstract queue that a call amounts to. */
  function CallStep(apps: seq<App>, q: Queue, call: Call): Queue
    requires OneRegistered(apps, call)
  {
    match call
    case SendCall(r) => if r.Accepted() then q.Send(MessageOf(apps, r)) else q
    case TaskCall(rs) => q.Task(AcceptedOf(apps, rs))
  }

  /** The same as operations of `IpcQueue`: a refused send is none. */
  function Steps(apps: seq<App>, calls: seq<Call>): seq<Op>
    requires AllRegistered(apps, calls)
  {
    if calls == [] then []
    else
      Steps(apps, calls[..|calls| - 1]) +
      match calls[|calls| - 1]
      case SendCall(r) => if r.Accepted() then [Op.Send(MessageOf(apps, r))] else []
      case TaskCall(rs) => [Op.Task(AcceptedOf(apps, rs))]
  }

  lemma RunOneMore(q: Queue, ops: seq<Op>, op: Op)
    ensures Run(q, ops + [op]) == Step(Run(q, ops), op)
    ensures ops + [] == ops
  {
    assert (ops + [op])[..|ops|] == ops;
  }

  lemma {:induction false} RunOneCall(apps: seq<App>, q: Queue, calls: seq<Call>)
    requires AllRegistered(apps, calls) && calls != []
    ensures var front := calls[..|calls| - 1];
            Run(q, Steps(apps, calls)) == CallStep(apps, Run(q, Steps(apps, front)), calls[|calls| - 1])
  {
    hide Find, MessageOf, AcceptedOf, Run;
    var ops := Steps(apps, calls[..|calls| - 1]);
    match calls[|calls| - 1] {
      case SendCall(r) => RunOneMore(q, ops, if r.Accepted() then Op.Send(MessageOf(apps, r)) else Op.Task([]));
      case TaskCall(rs) => RunOneMore(q, ops, Op.Task(AcceptedOf(apps, rs)));
    }
  }

  lemma SendConserves(q: Queue, ms: seq<Message>)
    ensures q.dispatched + (q.pending + ms) == q.dispatched + q.pending + ms
  {
  }

  lemma RetireConserves(q: Queue)
    requires q.pending != []
    ensures q.Retire().dispatched + q.Retire().pending == q.dispatched + q.pending
  {
    assert q.dispatched + [q.pending[0]] + q.pending[1..] == q.dispatched + q.pending;
  }

  /** Dispatched and waiting messages are the earlier ones and the new ones, each once and in order. */
  ghost predicate Conserved(q: Queue, r: Queue, added: seq<Message>) {
    r.dispatched + r.pending == q.dispatched + q.pending + added
  }

  lemma ConservedThen(q: Queue, r: Queue, t: Queue, a: seq<Message>, b: seq<Message>)
    requires Conserved(q, r, a) && Conserved(r, t, b)
    ensures Conserved(q, t, a + b)
  {
    assert q.dispatched + q.pending + a + b == q.dispatched + q.pending + (a + b);
  }

  lemma {:induction false} CallConserves(apps: seq<App>, q: Queue, call: Call)
    requires OneRegistered(apps, call)
    ensures var r, w := CallStep(apps, q, call), |q.pending|;
            && |r.pending| == w + |Adds(apps, call, w)| - Takes(call, w)
            && |r.dispatched| == |q.dispatched| + Takes(call, w)
            && Conserved(q, r, Adds(apps, call, w))
  {
    hide Find, MessageOf, AcceptedOf;
    match call {
      case SendCall(r) =>
        SendConserves(q, [MessageOf(apps, r)]);
      case TaskCall(rs) =>
        var ms := AcceptedOf(apps, rs);
        SendConserves(q, ms);
        if q.pending != [] {
          RetireConserves(q.SendAll(ms));
        }
    }
  }

  /** What the abstract queue does with a run, told from the requests alone. */
  lemma {:induction false} RunDelivers(apps: seq<App>, q: Queue, calls: seq<Call>)
    requires AllRegistered(apps, calls)
    ensures var r := Run(q, Steps(apps, calls));
            && |r.pending| == WaitingAfter(apps, calls, |q.pending|)
            && |r.dispatched| == |q.dispatched| + Dispatches(apps, calls, |q.pending|)
            && Conserved(q, r, Sent(apps, calls, |q.pending|))
  {
    hide Find, MessageOf, AcceptedOf, CallStep, Adds, Takes;
    if calls != [] {
      var front := calls[..|calls| - 1];
      hide Run;
      RunDelivers(apps, q, front);
      RunOneCall(apps, q, calls);
      var f, call, w := Run(q, Steps(apps, front)), calls[|calls| - 1], WaitingAfter(apps, front, |q.pending|);
      CallConserves(apps, f, call);
      hide Conserved;
      ConservedThen(q, f, CallStep(apps, f, call), Sent(apps, front, |q.pending|), Adds(apps, call, w));
    }
  }

  lemma {:induction false} CallDispatches(apps: seq<App>, q: Queue, call: Call)
    requires OneRegistered(apps, call)
    ensures Takes(call, |q.pending|) <= |q.pending|
    ensures CallStep(apps, q, call).dispatched == q.dispatched + q.pending[..Takes(call, |q.pending|)]
  {
    hide Find, MessageOf, AcceptedOf;
    if call.TaskCall? && q.pending != [] {
      assert q.pending[..1] == [q.pending[0]];
    }
  }

  /** What was dispatched since q, and what waits, are the two parts of one sequence. */
  lemma {:induction false} SplitConserved(q: Queue, r: Queue, added: seq<Message>)
    requires Conserved(q, r, added) && q.dispatched <= r.dispatched
    ensures var all, n := q.pending + added, |r.dispatched| - |q.dispatched|;
            n <= |all| && r.dispatched[|q.dispatched|..] == all[..n] && r.pending == all[n..]
  {
    var d := |q.dispatched|;
    assert (r.dispatched + r.pending)[d..] == r.dispatched[d..] + r.pending;
    assert (q.dispatched + q.pending + added)[d..] == q.pending + added;
  }

  /** The first k calls took q to r and delivered just these. */
  ghost predicate Progress(apps: seq<App>, q: Queue, calls: seq<Call>, k: nat, r: Queue, deliveries: seq<Delivery>)
    requires AllRegistered(apps, calls) && k <= |calls|
  {
    && r == Run(q, Steps(apps, calls[..k]))
    && |r.pending| == WaitingAfter(apps, calls[..k], |q.pending|)
    && q.dispatched <= r.dispatched
    && deliveries == DeliveriesOf(r.dispatched[|q.dispatched|..])
  }

  lemma NoProgress(apps: seq<App>, q: Queue, calls: seq<Call>)
    requires AllRegistered(apps, calls)
    ensures Progress(apps, q, calls, 0, q, []) && AbandonedIn(apps, calls[..0], |q.pending|) == 0
  {
  }

  lemma {:induction false} OneMoreCall(apps: seq<App>, q: Queue, calls: seq<Call>, k: nat, r: Queue, deliveries: seq<Delivery>)
    requires AllRegistered(apps, calls) && k < |calls| && Progress(apps, q, calls, k, r, deliveries)
    ensures var w := |r.pending|;
            && Progress(apps, q, calls, k + 1, CallStep(apps, r, calls[k]),
                        deliveries + DeliveriesOf(r.pending[..Takes(calls[k], w)]))
            && AbandonedIn(apps, calls[..k + 1], |q.pending|)
               == AbandonedIn(apps, calls[..k], |q.pending|) + Abandons(calls[k], w)
  {
    hide Find, CallStep, Takes, Abandons, Run, DeliveriesOf, OneRegistered, Adds, Steps;
    var upTo, d := calls[..k + 1], |q.dispatched|;
    assert upTo[..k] == calls[..k];
    RunOneCall(apps, q, upTo);
    CallDispatches(apps, r, calls[k]);
    RunDelivers(apps, q, upTo);
    var taken := r.pending[..Takes(calls[k], |r.pending|)];
    DeliveriesOfBoth(r.dispatched[d..], taken);
    assert (r.dispatched + taken)[d..] == r.dispatched[d..] + taken;
  }

  lemma {:induction false} AllCallsMade(apps: seq<App>, q: Queue, calls: seq<Call>, r: Queue, deliveries: seq<Delivery>)
    requires AllRegistered(apps, calls) && Progress(apps, q, calls, |calls|, r, deliveries)
    ensures r == Run(q, Steps(apps, calls))
    ensures var all, n := q.pending + Sent(apps, calls, |q.pending|), Dispatches(apps, calls, |q.pending|);
            n <= |all| && deliveries == DeliveriesOf(all[..n]) && r.pending == all[n..]
  {
    hide Find, Run, DeliveriesOf, Steps, Conserved;
    assert calls[..|calls|] == calls;
    RunDelivers(apps, q, calls);
    SplitConserved(q, r, Sent(apps, calls, |q.pending|));
  }

  lemma DeliveriesOfBoth(a: seq<Message>, b: seq<Message>)
    ensures DeliveriesOf(a + b) == DeliveriesOf(a) + DeliveriesOf(b)
  {
  }

  class Ipc {
    var queue: IpcEvent?
    const apps: seq<App>

    ghost var nodes: seq<IpcEvent>
    ghost var bufs: seq<array<byte>>
    ghost var state: Queue
    /** All blocks malloc handed out and free did not take back. */
    ghost var live: set<object>
    /** Nodes abandoned because their payload could not be allocated. */
    ghost var abandoned: set<IpcEvent>

    /** Nodes and buffers are live and pairwise distinct, and no abandoned node is queued. */
    ghost predicate Owned()
      reads this
    {
      |nodes| == |state.pending| && Blocks(nodes, bufs, live, abandoned)
    }

    ghost predicate List()
      reads this, nodes, bufs
    {
      Owned() && Chain(queue, nodes) && Filled(nodes, bufs, state.pending)
    }

    /** All memory is in the list or abandoned. */
    ghost predicate Accounted()
      reads this
    {
      |live| == 2 * |nodes| + |abandoned|
    }

    ghost predicate Valid()
      reads this, nodes, bufs
    {
      List() && Accounted() && state.ExactlyOnce()
    }

    constructor (apps: seq<App>)
      ensures Valid() && live == {} && this.apps == apps && state == Queue([], [], [])
    {
      this.apps := apps;
      queue := null;
      nodes, bufs, state, live, abandoned := [], [], Queue([], [], []), {}, {};
    }

    /** LL_APPEND(ipc_event_queue, event) */
    method Append(event: IpcEvent)
      requires Chain(queue, nodes) && Distinct(nodes) && event !in nodes
      modifies this`queue, nodes`next, event`next
      ensures Chain(queue, nodes + [event])
    {
      event.next := null;
      if queue != null {
        var tmp := queue;
        ghost var k := 0;
        while tmp.next != null
          invariant k < |nodes| && tmp == nodes[k] && tmp.next == NodeAt(nodes, k + 1)
          decreases |nodes| - k
        {
          tmp := tmp.next;
          k := k + 1;
        }
        tmp.next := event;
      } else {
        queue := event;
      }
    }

    /** The walk of LL_DELETE: the element before the k-th. */
    method Before(event: IpcEvent, ghost k: nat) returns (tmp: IpcEvent)
      requires Chain(queue, nodes) && Distinct(nodes) && 0 < k < |nodes| && event == nodes[k]
      ensures tmp == nodes[k - 1] && tmp.next == event
    {
      tmp := queue;
      ghost var j := 0;
      while tmp.next != null && tmp.next != event
        invariant j < k && tmp == nodes[j] && tmp.next == nodes[j + 1]
        decreases |nodes| - j
      {
        tmp := tmp.next;
        j := j + 1;
      }
    }

    /** LL_DELETE(ipc_event_queue, event) for the k-th element. */
    method Delete(event: IpcEvent, ghost k: nat)
      requires Chain(queue, nodes) && Distinct(nodes) && k < |nodes| && event == nodes[k]
      modifies this`queue, nodes`next
      ensures Chain(queue, Without(nodes, k))
    {
      if queue == event {
        queue := queue.next;
      } else {
        var tmp := Before(event, k);
        if tmp.next != null {
          tmp.next := event.next;
        }
      }
    }

    /** LL_COUNT(ipc_event_queue, elt, queue_len) */
    method Count() returns (queueLen: nat)
      requires Chain(queue, nodes)
      ensures queueLen == |nodes|
    {
      queueLen := 0;
      var elt := queue;
      while elt != null
        invariant queueLen <= |nodes| && elt == NodeAt(nodes, queueLen)
        decreases |nodes| - queueLen
      {
        queueLen := queueLen + 1;
        elt := elt.next;
      }
    }

    /** The allocation half of a send: a filled node, or null when one of the two blocks is refused. */
    method NewEvent(dir: Direction, wsid: seq<byte>, data: array<byte>, len: nat, eventAlloc: bool, dataAlloc: bool)
      returns (event: IpcEvent?)
      requires Owned() && Accounted()
      requires len <= data.Length && Find(apps, wsid).Some?
      modifies this`live, this`abandoned
      ensures Owned()
      ensures event != null <==> eventAlloc && dataAlloc
      ensures event != null ==>
                (&& fresh(event) && event.data != null && fresh(event.data)
                 && Holds(event, event.data, Message(dir, Find(apps, wsid).value, data[..len]))
                 && event in live && event.data in live && event !in nodes && event.data !in bufs && event !in abandoned)
      ensures |live| == 2 * |nodes| + |abandoned| + (if event != null then 2 else 0)
      ensures |abandoned| == |old(abandoned)| + (if eventAlloc && !dataAlloc then 1 else 0)
    {
      hide Find, Blocks, Distinct, Holds, MessageOf;
      event := null;
      if !eventAlloc {
        return;
      }
      var node := new IpcEvent();
      BlocksGrow(nodes, bufs, live, abandoned, node);
      live := live + {node};
      if !dataAlloc {
        abandoned := abandoned + {node};
        return;
      }
      var copy := new byte[len];
      BlocksGrow(nodes, bufs, live, abandoned, copy);
      live := live + {copy};
      node.data := copy;
      Fill(node, copy, dir, wsid, data, len);
      event := node;
    }

    /** The payload is copied; the caller may reuse its buffer. */
    method Fill(event: IpcEvent, copy: array<byte>, dir: Direction, wsid: seq<byte>, data: array<byte>, len: nat)
      requires event.data == copy && copy != data && copy.Length == len <= data.Length && Find(apps, wsid).Some?
      modifies event`eventType, event`app, event`len, copy
      ensures Holds(event, copy, Message(dir, Find(apps, wsid).value, data[..len]))
    {
      hide Find;
      forall i | 0 <= i < len {
        copy[i] := data[i];
      }
      assert copy[..] == data[..len];
      event.len := len;
      event.app := Find(apps, wsid).value;
      event.eventType := TypeOf(dir);
    }

    /** Puts a filled node at the end of the list. */
    method Enqueue(event: IpcEvent, buf: array<byte>, ghost m: Message)
      requires List() && Holds(event, buf, m)
      requires event in live && buf in live && event !in nodes && buf !in bufs && event !in abandoned
      modifies this`queue, this`nodes, this`bufs, this`state, nodes`next, event`next
      ensures List() && state == old(state).Send(m)
      ensures nodes == old(nodes) + [event] && bufs == old(bufs) + [buf]
    {
      hide Filled, Holds, Chain;
      BlocksAppend(nodes, bufs, live, abandoned, event, buf);
      FilledAppend(nodes, bufs, state.pending, event, buf, m);
      ghost var nodes', bufs', pending' := nodes + [event], bufs + [buf], state.pending + [m];
      Append(event);
      assert Filled(nodes', bufs', pending');
      nodes, bufs, state := nodes + [event], bufs + [buf], state.Send(m);
    }

    /** send_app_to_core and send_core_to_app, which differ in the type only. */
    method Send(dir: Direction, wsid: seq<byte>, data: array<byte>, len: nat, eventAlloc: bool, dataAlloc: bool)
      requires Valid() && len <= data.Length && Find(apps, wsid).Some?
      modifies this, nodes`next
      ensures Valid()
      ensures var r := Request(dir, wsid, data[..len], eventAlloc, dataAlloc);
              state == (if r.Accepted() then old(state).Send(MessageOf(apps, r)) else old(state))
              && (eventAlloc && dataAlloc ==>
                    state.pending == old(state.pending) + [Message(dir, Find(apps, wsid).value, data[..len])])
              && (!eventAlloc || !dataAlloc ==> state.pending == old(state.pending))
      ensures |abandoned| == |old(abandoned)| + (if eventAlloc && !dataAlloc then 1 else 0)
      ensures old(nodes) <= nodes && forall i | |old(nodes)| <= i < |nodes| :: fresh(nodes[i])
      ensures old(bufs) <= bufs && forall i | |old(bufs)| <= i < |bufs| :: fresh(bufs[i])
    {
      hide Find, Blocks, Filled, Holds, Chain, Queue.ExactlyOnce;
      var event := NewEvent(dir, wsid, data, len, eventAlloc, dataAlloc);
      if event != null {
        SendExactlyOnce(state, [Message(dir, Find(apps, wsid).value, data[..len])]);
        Enqueue(event, event.data, Message(dir, Find(apps, wsid).value, data[..len]));
      }
    }

    /** The receiver of a message, while it runs: it may send any number of messages itself. */
    method Receive(replies: seq<Request>)
      requires Valid() && Registered(apps, replies)
      modifies this, nodes`next
      ensures Valid()
      ensures state == old(state).SendAll(AcceptedOf(apps, replies))
      ensures |abandoned| == |old(abandoned)| + HalfAllocated(replies)
      ensures old(nodes) <= nodes && forall i | |old(nodes)| <= i < |nodes| :: fresh(nodes[i])
      ensures old(bufs) <= bufs && forall i | |old(bufs)| <= i < |bufs| :: fresh(bufs[i])
    {
      hide Find, Blocks, Filled, Holds, Chain, Queue.ExactlyOnce, AcceptedOf, HalfAllocated;
      NoReply(apps, state);
      for i := 0 to |replies|
        invariant Valid()
        invariant state == old(state).SendAll(AcceptedOf(apps, replies[..i]))
        invariant |abandoned| == |old(abandoned)| + HalfAllocated(replies[..i])
        invariant old(nodes) <= nodes && forall i | |old(nodes)| <= i < |nodes| :: fresh(nodes[i])
        invariant old(bufs) <= bufs && forall i | |old(bufs)| <= i < |bufs| :: fresh(bufs[i])
      {
        var r := replies[i];
        OneMoreReply(apps, replies, i, old(state));
        var buffer := new byte[|r.payload|](k requires 0 <= k < |r.payload| => r.payload[k]);
        assert buffer[..|r.payload|] == r.payload;
        Send(r.dir, r.wsid, buffer, |r.payload|, r.eventAlloc, r.dataAlloc);
      }
      assert replies[..|replies|] == replies;
    }

    /** free */
    method Free(o: object)
      requires o in live
      modifies this`live
      ensures live == old(live) - {o}
    {
      live := live - {o};
    }

    /** The dispatch switch: receive_app_to_core or receive_core_to_app gets the payload of the node. */
    method Deliver(event: IpcEvent, ghost buf: array<byte>, ghost m: Message) returns (delivered: Option<Delivery>)
      requires Holds(event, buf, m)
      ensures delivered == Some(DeliveryOf(m))
      ensures m.dir == AppToCore ==> delivered == Some(ToCore(m.app.wsid, m.data))
      ensures m.dir == CoreToApp ==> delivered == Some(ToApp(m.app, m.data))
    {
      delivered := None;
      assert buf[..buf.Length] == buf[..];
      match event.eventType {
        case EventAppToCore => delivered := Some(ToCore(event.app.wsid, event.data[..event.len]));
        case EventCoreToApp => delivered := Some(ToApp(event.app, event.data[..event.len]));
        case EventUnknown =>
      }
    }

    /** free(event->data); free(event): neither may have been freed before. */
    method Release(event: IpcEvent)
      requires event in live && event.data != null && event.data in live
      modifies this`live
      ensures live == old(live) - {event, event.data} && |live| == |old(live)| - 2
    {
      Free(event.data);
      Free(event);
    }

    /** Unlinks the head and frees both its blocks; the books still show it. */
    method UnlinkHead(event: IpcEvent)
      requires Valid() && nodes != [] && event == queue
      modifies this`queue, this`live, nodes`next
      ensures Chain(queue, nodes[1..]) && Filled(nodes[1..], bufs[1..], state.pending[1..])
      ensures Blocks(nodes[1..], bufs[1..], live, abandoned) && |live| == |old(live)| - 2
      ensures event !in live && event !in nodes[1..]
    {
      hide Blocks, Filled, Holds, Chain, Distinct, Queue.ExactlyOnce, Without;
      HeadOf(queue, nodes);
      HoldsHead(nodes, bufs, state.pending);
      WithoutFirst(state.pending);
      WithoutFirst(nodes);
      WithoutFirst(bufs);
      FilledWithout(nodes, bufs, state.pending, 0);
      BlocksWithout(nodes, bufs, live, abandoned, 0);
      ghost var live' := live - {nodes[0], bufs[0]};
      Delete(event, 0);
      Release(event);
      assert live == live';
    }

    /** Takes the head out of the list for good. */
    method Discard(event: IpcEvent)
      requires Valid() && nodes != [] && event == queue
      modifies this, nodes`next
      ensures Valid() && state == old(state).Retire() && abandoned == old(abandoned)
      ensures event !in live && event !in nodes
      ensures nodes == old(nodes)[1..] && bufs == old(bufs)[1..]
    {
      hide Blocks, Filled, Holds, Chain, Distinct, Queue.ExactlyOnce, Without;
      HoldsHead(nodes, bufs, state.pending);
      RetireExactlyOnce(state);
      UnlinkHead(event);
      nodes, bufs, state := nodes[1..], bufs[1..], state.Retire();
    }

    /**
     * port_service_ipc_task: hands the oldest message to its receiver, and only then
     * unlinks its node and frees both blocks.
     */
    method PortServiceIpcTask(replies: seq<Request>) returns (delivered: Option<Delivery>)
      requires Valid() && Registered(apps, replies)
      modifies this, nodes`next
      ensures Valid()
      ensures old(nodes) == [] ==> delivered == None && state == old(state) && live == old(live)
      ensures old(nodes) != [] ==>
                (&& delivered == Some(DeliveryOf(old(state).pending[0]))
                 && ReachesReceiver(delivered.value, old(state).pending[0])
                 && state == old(state).Task(AcceptedOf(apps, replies))
                 && |abandoned| == |old(abandoned)| + HalfAllocated(replies))
      ensures forall i | 0 <= i < |nodes| :: nodes[i] in old(nodes) || fresh(nodes[i])
      ensures forall i | 0 <= i < |bufs| :: bufs[i] in old(bufs) || fresh(bufs[i])
      ensures old(nodes) == [] ==> abandoned == old(abandoned)
    {
      hide Find, Blocks, Filled, Holds, Chain, Queue.ExactlyOnce;
      HeadOf(queue, nodes);
      var event := queue;
      if event == null {
        return None;
      }
      HoldsHead(nodes, bufs, state.pending);
      delivered := Deliver(event, bufs[0], state.pending[0]);
      Receive(replies);
      HeadOf(queue, nodes);
      Discard(event);
      var queueLen := Count();
    }

    /** One call of a run. After a send the caller overwrites the buffer it passed. */
    method Perform(call: Call) returns (deliveries: seq<Delivery>)
      requires Valid() && OneRegistered(apps, call)
      modifies this, nodes`next
      ensures Valid() && state == CallStep(apps, old(state), call)
      ensures deliveries == DeliveriesOf(old(state).pending[..Takes(call, |old(nodes)|)])
      ensures |abandoned| == |old(abandoned)| + Abandons(call, |old(nodes)|)
      ensures forall i | 0 <= i < |nodes| :: nodes[i] in old(nodes) || fresh(nodes[i])
    {
      hide Find, Blocks, Filled, Holds, Chain, Queue.ExactlyOnce;
      deliveries := [];
      match call {
        case SendCall(r) =>
          var buffer := new byte[|r.payload|](k requires 0 <= k < |r.payload| => r.payload[k]);
          assert buffer[..|r.payload|] == r.payload;
          Send(r.dir, r.wsid, buffer, |r.payload|, r.eventAlloc, r.dataAlloc);
          forall k | 0 <= k < buffer.Length {
            buffer[k] := 0;
          }
        case TaskCall(rs) =>
          var delivered := PortServiceIpcTask(rs);
          assert old(state).pending != [] ==> old(state).pending[..1] == [old(state).pending[0]];
          if delivered.Some? {
            deliveries := [delivered.value];
          }
      }
    }

    /**
     * Any run of sends and task calls on the list. What is delivered, followed by what waits at the
     * end, are the messages waiting at the start and the accepted ones, each once, in order and
     * as they were sent; and every block is in the list or was abandoned by a send.
     */
    method Drive(calls: seq<Call>) returns (deliveries: seq<Delivery>)
      requires Valid() && AllRegistered(apps, calls)
      modifies this, nodes`next
      ensures Valid() && state == Run(old(state), Steps(apps, calls))
      ensures var all := old(state).pending + Sent(apps, calls, |old(nodes)|);
              var n := Dispatches(apps, calls, |old(nodes)|);
              n <= |all| && deliveries == DeliveriesOf(all[..n]) && state.pending == all[n..]
              && |deliveries| == n && forall k | 0 <= k < n :: ReachesReceiver(deliveries[k], all[k])
      ensures |live| == 2 * |nodes| + |old(abandoned)| + AbandonedIn(apps, calls, |old(nodes)|)
    {
      hide Find, Blocks, Filled, Holds, Chain, Queue.ExactlyOnce, CallStep, Takes, Abandons, AbandonedIn;
      hide Run, Steps, DeliveriesOf, OneRegistered, Progress, Sent, Dispatches;
      deliveries := [];
      ghost var q := state;
      NoProgress(apps, q, calls);
      for k := 0 to |calls|
        invariant Valid() && Progress(apps, q, calls, k, state, deliveries)
        invariant |abandoned| == |old(abandoned)| + AbandonedIn(apps, calls[..k], |q.pending|)
        invariant forall i | 0 <= i < |nodes| :: nodes[i] in old(nodes) || fresh(nodes[i])
      {
        OneMoreCall(apps, q, calls, k, state, deliveries);
        var more := Perform(calls[k]);
        deliveries := deliveries + more;
      }
      AllCallsMade(apps, q, calls, state, deliveries);
      assert calls[..|calls|] == calls;
    }
  }
}
