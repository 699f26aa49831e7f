/**
 * The service IPC layer as a queue of messages: what its runs look like, whatever is
 * sent between and during the dispatches.
 */
module IpcQueue {
  import opened Bits

  datatype Direction = AppToCore | CoreToApp

  datatype App = App(handle: nat, wsid: seq<byte>)

  /** A message as it was at the time of the send. */
  datatype Message = Message(dir: Direction, app: App, data: seq<byte>)

  /** Messages waiting, dispatched so far, and accepted so far, each oldest first. */
  datatype Queue = Queue(pending: seq<Message>, dispatched: seq<Message>, accepted: seq<Message>) {
    function Send(m: Message): Queue {
      Queue(pending + [m], dispatched, accepted + [m])
    }

    function SendAll(ms: seq<Message>): Queue {
      Queue(pending + ms, dispatched, accepted + ms)
    }

    /** The oldest message leaves the queue: it has been dispatched. */
    function Retire(): Queue
      requires pending != []
    {
      Queue(pending[1..], dispatched + [pending[0]], accepted)
    }

    /** One task call, during which the handler sends `replies` while its own message is still queued. */
    function Task(replies: seq<Message>): Queue {
      if pending == [] then this else SendAll(replies).Retire()
    }

    /** Nothing accepted is lost, duplicated, reordered or altered. */
    predicate ExactlyOnce() {
      accepted == dispatched + pending
    }
  }

  datatype Op = Send(m: Message) | Task(replies: seq<Message>)

  function Step(q: Queue, op: Op): Queue {
    match op
    case Send(m) => q.Send(m)
    case Task(replies) => q.Task(replies)
  }

  function Run(q: Queue, ops: seq<Op>): Queue {
    if ops == [] then q else Step(Run(q, ops[..|ops| - 1]), ops[|ops| - 1])
  }

  function Tasks(ops: seq<Op>): nat {
    if ops == [] then 0 else Tasks(ops[..|ops| - 1]) + (if ops[|ops| - 1].Task? then 1 else 0)
  }

  lemma SendExactlyOnce(q: Queue, ms: seq<Message>)
    requires q.ExactlyOnce()
    ensures q.SendAll(ms).ExactlyOnce()
  {
    assert q.dispatched + q.pending + ms == q.dispatched + (q.pending + ms);
  }

  lemma RetireExactlyOnce(q: Queue)
    requires q.ExactlyOnce() && q.pending != []
    ensures q.Retire().ExactlyOnce()
  {
    assert q.dispatched + q.pending == q.dispatched + [q.pending[0]] + q.pending[1..];
  }

  lemma StepExactlyOnce(q: Queue, op: Op)
    requires q.ExactlyOnce()
    ensures Step(q, op).ExactlyOnce()
  {
    match op {
      case Send(m) =>
        SendExactlyOnce(q, [m]);
      case Task(ms) =>
        if q.pending != [] {
          SendExactlyOnce(q, ms);
          RetireExactlyOnce(q.SendAll(ms));
        }
    }
  }

  /** Exactly-once, first-in-first-out delivery over every interleaving of sends and task calls. */
  lemma {:induction false} RunExactlyOnce(q: Queue, ops: seq<Op>)
    requires q.ExactlyOnce()
    ensures Run(q, ops).ExactlyOnce()
  {
    if ops != [] {
      RunExactlyOnce(q, ops[..|ops| - 1]);
      StepExactlyOnce(Run(q, ops[..|ops| - 1]), ops[|ops| - 1]);
    }
  }

  /**
   * Bounded wait: as long as there are messages from before, t task calls dispatch exactly
   * the first t of them, and the others keep their places, whatever is sent meanwhile. So a
   * message with k ahead of it goes out in the (k + 1)-th later call and not before.
   */
  lemma {:induction false} BoundedWait(q: Queue, ops: seq<Op>)
    requires Tasks(ops) <= |q.pending|
    ensures Run(q, ops).dispatched == q.dispatched + q.pending[..Tasks(ops)]
    ensures q.pending[Tasks(ops)..] <= Run(q, ops).pending
  {
    if ops != [] {
      var front, op := ops[..|ops| - 1], ops[|ops| - 1];
      BoundedWait(q, front);
      var r, t := Run(q, front), Tasks(front);
      if op.Task? {
        assert q.pending[t..][0] == q.pending[t];
        assert q.pending[..t] + [q.pending[t]] == q.pending[..t + 1];
        assert q.pending[t..][1..] == q.pending[t + 1..];
      }
    }
  }

  /** The same, told of one message: when it is dispatched. */
  lemma DispatchedInTurn(q: Queue, k: nat, ops: seq<Op>)
    requires k < |q.pending| && Tasks(ops) <= |q.pending|
    ensures var r := Run(q, ops);
            && |r.dispatched| == |q.dispatched| + Tasks(ops)
            && (Tasks(ops) <= k ==> k - Tasks(ops) < |r.pending| && r.pending[k - Tasks(ops)] == q.pending[k])
            && (Tasks(ops) > k ==> r.dispatched[|q.dispatched| + k] == q.pending[k])
  {
    BoundedWait(q, ops);
    var t := Tasks(ops);
    if t <= k {
      assert q.pending[t..][k - t] == q.pending[k];
    }
  }
}
