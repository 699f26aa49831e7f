/**
 * source/mist_port/event.c: the queue of core events, a 40-slot circular array whose
 * overflow only prints a warning.
 *
 * `Ring` is the C state as a value, with one function per operation; `EventRing` is the
 * array updated in place and proved equal to it. Runs of any length are described
 * against the history of posted events, without any assumption that the ring is not
 * overrun.
 */
module EventRing {
  import opened CText

  const QUEUE_LEN: nat := 40

  /** WISH_EVENT_NEW_DATA is the one event the port itself posts; the others are the core's. */
  datatype EventType = NewData | Other(code: nat)

  /** struct wish_event, the context given by its index in the pool. */
  datatype WishEvent = WishEvent(eventType: EventType, context: nat)

  /** event_read, event_write, num_curr_events and the array. */
  datatype Ring = Ring(read: nat, write: nat, count: nat, slots: seq<WishEvent>) {
    predicate WellFormed() {
      |slots| == QUEUE_LEN && read < QUEUE_LEN && write < QUEUE_LEN
    }

    /** wish_message_processor_notify */
    function Notify(ev: WishEvent): Ring
      requires WellFormed()
    {
      Ring(read, (write + 1) % QUEUE_LEN, count + 1, slots[write := ev])
    }

    /** wish_get_next_event: the slot the caller gets a pointer to, or None for NULL. */
    function Get(): (Ring, Option<nat>)
      requires WellFormed()
    {
      if count == 0 then (this, None)
      else (Ring((read + 1) % QUEUE_LEN, write, count - 1, slots), Some(read))
    }
  }

  /** The largest index below n that falls into the given slot. */
  function Latest(n: nat, slot: nat): (k: nat)
    requires slot < QUEUE_LEN && slot < n
    ensures k < n && k % QUEUE_LEN == slot && n <= k + QUEUE_LEN
  {
    n - 1 - (n - 1 - slot) % QUEUE_LEN
  }

  lemma LatestIsLargest(n: nat, slot: nat, k: nat)
    requires slot < QUEUE_LEN && slot < n
    requires k < n && k % QUEUE_LEN == slot
    ensures k <= Latest(n, slot)
    ensures n <= k + QUEUE_LEN ==> k == Latest(n, slot)
  {
  }

  /** A ring that has seen the events `posted` and handed out `taken` of them. */
  ghost predicate Tracks(r: Ring, posted: seq<WishEvent>, taken: nat) {
    && r.WellFormed()
    && taken <= |posted|
    && r.count == |posted| - taken
    && r.read == taken % QUEUE_LEN
    && r.write == |posted| % QUEUE_LEN
    && forall k | 0 <= k < |posted| <= k + QUEUE_LEN :: r.slots[k % QUEUE_LEN] == posted[k]
  }

  lemma NextSlot(n: nat)
    ensures (n % QUEUE_LEN + 1) % QUEUE_LEN == (n + 1) % QUEUE_LEN
  {
  }

  lemma NotifyTracks(r: Ring, posted: seq<WishEvent>, taken: nat, ev: WishEvent)
    requires Tracks(r, posted, taken)
    ensures Tracks(r.Notify(ev), posted + [ev], taken)
  {
    var p := posted + [ev];
    NextSlot(|posted|);
    forall k | 0 <= k < |p| <= k + QUEUE_LEN
      ensures r.Notify(ev).slots[k % QUEUE_LEN] == p[k]
    {
      if k < |posted| {
        assert k % QUEUE_LEN != |posted| % QUEUE_LEN;
      }
    }
  }

  lemma GetTracks(r: Ring, posted: seq<WishEvent>, taken: nat)
    requires Tracks(r, posted, taken)
    ensures Tracks(r.Get().0, posted, if taken < |posted| then taken + 1 else taken)
    ensures r.Get().1 == if taken < |posted| then Some(taken % QUEUE_LEN) else None
  {
    NextSlot(taken);
  }

  /**
   * What a slot holds: the newest event posted into it. For the event handed out j-th this is
   * that event itself exactly until 40 later ones have been posted.
   */
  lemma SlotHolds(r: Ring, posted: seq<WishEvent>, taken: nat, j: nat)
    requires Tracks(r, posted, taken) && j < |posted|
    ensures j % QUEUE_LEN < |posted|
    ensures r.slots[j % QUEUE_LEN] == posted[Latest(|posted|, j % QUEUE_LEN)]
    ensures Latest(|posted|, j % QUEUE_LEN) == j <==> |posted| <= j + QUEUE_LEN
  {
    LatestIsLargest(|posted|, j % QUEUE_LEN, j);
  }

  /** A successful get reads the newest event posted into the slot of the event whose turn it is. */
  lemma GetReads(r: Ring, posted: seq<WishEvent>, taken: nat)
    requires Tracks(r, posted, taken) && taken < |posted|
    ensures Tracks(r.Get().0, posted, taken + 1)
    ensures taken % QUEUE_LEN < |posted| && r.Get().1 == Some(taken % QUEUE_LEN)
    ensures r.slots[taken % QUEUE_LEN] == posted[Latest(|posted|, taken % QUEUE_LEN)]
  {
    GetTracks(r, posted, taken);
    SlotHolds(r, posted, taken, taken);
  }

  // ----- Runs

  datatype Op = Post(ev: WishEvent) | Take

  /** The static, zero-initialised variables. */
  function Initial(): Ring {
    Ring(0, 0, 0, seq(QUEUE_LEN, i => WishEvent(Other(0), 0)))
  }

  /** The state after a run of operations, newest last. */
  function Run(ops: seq<Op>): (r: Ring)
    ensures r.WellFormed()
  {
    if ops == [] then Initial()
    else
      var r := Run(ops[..|ops| - 1]);
      match ops[|ops| - 1]
      case Post(ev) => r.Notify(ev)
      case Take => r.Get().0
  }

  /** The events posted in a run. */
  function Posted(ops: seq<Op>): seq<WishEvent> {
    if ops == [] then []
    else
      var p := Posted(ops[..|ops| - 1]);
      match ops[|ops| - 1]
      case Post(ev) => p + [ev]
      case Take => p
  }

  /** How many of a run's takes came while fewer events were taken than posted. */
  function Taken(ops: seq<Op>): nat {
    if ops == [] then 0
    else
      var front := ops[..|ops| - 1];
      if ops[|ops| - 1] == Take && Taken(front) < |Posted(front)| then Taken(front) + 1 else Taken(front)
  }

  lemma {:induction false} RunTracks(ops: seq<Op>)
    ensures Tracks(Run(ops), Posted(ops), Taken(ops))
  {
    if ops != [] {
      var front := ops[..|ops| - 1];
      RunTracks(front);
      match ops[|ops| - 1] {
        case Post(ev) => NotifyTracks(Run(front), Posted(front), Taken(front), ev);
        case Take => GetTracks(Run(front), Posted(front), Taken(front));
      }
    }
  }

  /**
   * In every run the next get succeeds exactly when some posted event is still untaken,
   * and then yields the newest event that fell into the slot of the j-th, where j gets
   * succeeded before.
   */
  lemma NextGet(ops: seq<Op>)
    ensures Taken(ops) <= |Posted(ops)|
    ensures Run(ops).Get().1.Some? <==> Taken(ops) < |Posted(ops)|
    ensures Taken(ops) < |Posted(ops)| ==>
              var slot := Taken(ops) % QUEUE_LEN;
              Run(ops).Get().1 == Some(slot)
              && Run(ops).slots[slot] == Posted(ops)[Latest(|Posted(ops)|, slot)]
  {
    RunTracks(ops);
    GetTracks(Run(ops), Posted(ops), Taken(ops));
    if Taken(ops) < |Posted(ops)| {
      SlotHolds(Run(ops), Posted(ops), Taken(ops), Taken(ops));
    }
  }

  /** The queue is first-in-first-out at a get exactly when at most 40 events wait. */
  lemma FifoUnlessOverrun(ops: seq<Op>)
    requires Taken(ops) < |Posted(ops)|
    ensures Latest(|Posted(ops)|, Taken(ops) % QUEUE_LEN) == Taken(ops) <==> Run(ops).count <= QUEUE_LEN
  {
    RunTracks(ops);
    SlotHolds(Run(ops), Posted(ops), Taken(ops), Taken(ops));
  }

  /** n gets in a row: the slots handed out and the events read from them at once. */
  function TakeAll(r: Ring, n: nat): (res: (Ring, seq<WishEvent>))
    requires r.WellFormed()
    ensures res.0.WellFormed()
  {
    if n == 0 then (r, [])
    else
      var (r', got) := TakeAll(r, n - 1);
      match r'.Get()
      case (r'', None) => (r'', got)
      case (r'', Some(slot)) => (r'', got + [r'.slots[slot]])
  }

  lemma WaitingOf(r: Ring, posted: seq<WishEvent>, taken: nat)
    requires Tracks(r, posted, taken)
    ensures r.WellFormed() && taken <= |posted| && r.count == |posted| - taken
  {
  }

  /** The i-th event got is the newest one posted into the slot of event taken + i. */
  ghost predicate ReadInTurn(posted: seq<WishEvent>, taken: nat, got: seq<WishEvent>) {
    forall i | 0 <= i < |got| ::
      var slot := (taken + i) % QUEUE_LEN;
      slot < |posted| && got[i] == posted[Latest(|posted|, slot)]
  }

  lemma ReadNext(r: Ring, posted: seq<WishEvent>, taken: nat, got: seq<WishEvent>)
    requires ReadInTurn(posted, taken, got) && Tracks(r, posted, taken + |got|) && taken + |got| < |posted|
    ensures var slot := r.Get().1;
            slot.Some? && slot.value < |r.slots| && ReadInTurn(posted, taken, got + [r.slots[slot.value]])
            && Tracks(r.Get().0, posted, taken + |got| + 1)
  {
    hide Tracks, Latest;
    WaitingOf(r, posted, taken + |got|);
    GetReads(r, posted, taken + |got|);
  }

  /** What draining finds, overrun or not: the newest event of each slot, slot by slot. */
  lemma {:induction false} DrainYields(r: Ring, posted: seq<WishEvent>, taken: nat, n: nat)
    requires Tracks(r, posted, taken)
    ensures var (r', got) := TakeAll(r, n);
            && |got| == (if n <= r.count then n else r.count)
            && Tracks(r', posted, taken + |got|) && ReadInTurn(posted, taken, got)
  {
    hide ReadInTurn, Tracks, Latest;
    WaitingOf(r, posted, taken);
    if n > 0 {
      DrainYields(r, posted, taken, n - 1);
      var (r', got) := TakeAll(r, n - 1);
      WaitingOf(r', posted, taken + |got|);
      if taken + |got| < |posted| {
        ReadNext(r', posted, taken, got);
      }
    } else {
      NothingRead(posted, taken);
    }
  }

  lemma NothingRead(posted: seq<WishEvent>, taken: nat)
    ensures ReadInTurn(posted, taken, [])
  {
  }

  /** After any run, draining succeeds exactly once for each posted event not yet taken, then fails. */
  lemma DrainAfterRun(ops: seq<Op>, n: nat)
    requires n >= Run(ops).count
    ensures |TakeAll(Run(ops), n).1| + Taken(ops) == |Posted(ops)|
    ensures TakeAll(Run(ops), n).0.count == 0
    ensures Run(ops).count <= QUEUE_LEN ==> TakeAll(Run(ops), n).1 == Posted(ops)[Taken(ops)..]
  {
    hide Run, Posted, Taken, Tracks, Latest, ReadInTurn;
    RunTracks(ops);
    var r, posted, taken := Run(ops), Posted(ops), Taken(ops);
    WaitingOf(r, posted, taken);
    DrainYields(r, posted, taken, n);
    WaitingOf(TakeAll(r, n).0, posted, taken + r.count);
    if r.count <= QUEUE_LEN {
      InOrderWithoutOverrun(posted, taken, TakeAll(r, n).1);
    }
  }

  lemma {:induction false} InOrderWithoutOverrun(posted: seq<WishEvent>, taken: nat, got: seq<WishEvent>)
    requires taken + |got| == |posted| <= taken + QUEUE_LEN
    requires ReadInTurn(posted, taken, got)
    ensures got == posted[taken..]
  {
    hide Latest;
    forall i | 0 <= i < |got|
      ensures got[i] == posted[taken + i]
    {
      LatestIsLargest(|posted|, (taken + i) % QUEUE_LEN, taken + i);
    }
  }

  /** q posts in a row. */
  function PostAll(r: Ring, evs: seq<WishEvent>): (r': Ring)
    requires r.WellFormed()
    ensures r'.WellFormed()
  {
    if evs == [] then r else PostAll(r, evs[..|evs| - 1]).Notify(evs[|evs| - 1])
  }

  lemma {:induction false} PostAllTracks(r: Ring, posted: seq<WishEvent>, taken: nat, evs: seq<WishEvent>)
    requires Tracks(r, posted, taken)
    ensures Tracks(PostAll(r, evs), posted + evs, taken)
  {
    if evs == [] {
      assert posted + evs == posted;
    } else {
      var front, ev := evs[..|evs| - 1], evs[|evs| - 1];
      PostAllTracks(r, posted, taken, front);
      NotifyTracks(PostAll(r, front), posted + front, taken, ev);
      assert posted + front + [ev] == posted + evs;
    }
  }

  /**
   * The pointer a get returned, while its holder posts more events: with m events left
   * waiting, the slot keeps the event through 39 - m posts. The (40 - m)-th post
   * replaces it, and no overflow is reported then: the count is just 40.
   */
  lemma {:induction false} PointerStability(r: Ring, posted: seq<WishEvent>, taken: nat, evs: seq<WishEvent>)
    requires Tracks(r, posted, taken) && r.Get().1.Some?
    ensures var (r', slot) := r.Get();
            && (r'.count + |evs| < QUEUE_LEN ==>
                  PostAll(r', evs).slots[slot.value] == posted[taken])
            && (r'.count + |evs| == QUEUE_LEN && evs != [] ==>
                  PostAll(r', evs).slots[slot.value] == evs[|evs| - 1]
                  && PostAll(r', evs).count == QUEUE_LEN)
  {
    var (r', slot) := r.Get();
    GetTracks(r, posted, taken);
    PostAllTracks(r', posted, taken + 1, evs);
    SlotAfterPosts(PostAll(r', evs), posted, taken, evs);
  }

  lemma {:induction false} SlotAfterPosts(after: Ring, posted: seq<WishEvent>, taken: nat, evs: seq<WishEvent>)
    requires taken < |posted| && Tracks(after, posted + evs, taken + 1)
    ensures after.count < QUEUE_LEN ==> after.slots[taken % QUEUE_LEN] == posted[taken]
    ensures after.count == QUEUE_LEN && evs != [] ==> after.slots[taken % QUEUE_LEN] == evs[|evs| - 1]
  {
    hide Tracks;
    var all := posted + evs;
    CountOf(after, all, taken + 1);
    if after.count < QUEUE_LEN {
      RecentSlot(after, all, taken + 1, taken);
    } else if after.count == QUEUE_LEN && evs != [] {
      assert all[taken + QUEUE_LEN] == evs[|evs| - 1];
      RecentSlot(after, all, taken + 1, taken + QUEUE_LEN);
      SameSlot(taken);
    }
  }

  lemma CountOf(r: Ring, posted: seq<WishEvent>, taken: nat)
    requires Tracks(r, posted, taken)
    ensures r.WellFormed() && r.count == |posted| - taken
  {
  }

  /** Each of the last 40 events posted is in its slot. */
  lemma RecentSlot(r: Ring, posted: seq<WishEvent>, taken: nat, k: nat)
    requires Tracks(r, posted, taken) && k < |posted| <= k + QUEUE_LEN
    ensures r.slots[k % QUEUE_LEN] == posted[k]
  {
  }

  lemma SameSlot(n: nat)
    ensures (n + QUEUE_LEN) % QUEUE_LEN == n % QUEUE_LEN
  {
  }

  // ----- The array in memory

  class EventQueue {
    var eventRead: nat
    var eventWrite: nat
    var numCurrEvents: nat
    const events: array<WishEvent>

    ghost var posted: seq<WishEvent>
    ghost var taken: nat

    ghost predicate Valid()
      reads this, events
    {
      events.Length == QUEUE_LEN && Tracks(View(), posted, taken)
    }

    ghost function View(): Ring
      reads this, events
    {
      Ring(eventRead, eventWrite, numCurrEvents, events[..])
    }

    constructor ()
      ensures Valid() && fresh(events) && View() == Initial() && posted == [] && taken == 0
    {
      eventRead, eventWrite, numCurrEvents := 0, 0, 0;
      events := new WishEvent[QUEUE_LEN](_ => WishEvent(Other(0), 0));
      posted, taken := [], 0;
    }

    /** Returns whether the overflow warning was printed. */
    method Notify(ev: WishEvent) returns (warned: bool)
      requires Valid()
      modifies this, events
      ensures Valid() && View() == old(View()).Notify(ev)
      ensures posted == old(posted) + [ev] && taken == old(taken)
      ensures warned <==> |posted| - taken > QUEUE_LEN
    {
      ghost var before := View();
      events[eventWrite] := ev;
      eventWrite := (eventWrite + 1) % QUEUE_LEN;
      numCurrEvents := numCurrEvents + 1;
      posted := posted + [ev];
      NotifyTracks(before, old(posted), taken, ev);
      warned := numCurrEvents > QUEUE_LEN;
    }

    method GetNextEvent() returns (slot: Option<nat>)
      requires Valid()
      modifies this
      ensures Valid() && (View(), slot) == old(View()).Get()
      ensures posted == old(posted) && taken <= |posted|
      ensures slot.Some? <==> old(taken) < |posted|
      ensures taken == if slot.Some? then old(taken) + 1 else old(taken)
      ensures slot.Some? ==> slot.value == old(taken) % QUEUE_LEN < |posted|
                             && events[slot.value] == posted[Latest(|posted|, slot.value)]
    {
      ghost var before := View();
      slot := None;
      if numCurrEvents != 0 {
        slot := Some(eventRead);
        eventRead := (eventRead + 1) % QUEUE_LEN;
        numCurrEvents := numCurrEvents - 1;
        SlotHolds(before, posted, taken, taken);
        taken := taken + 1;
      }
      GetTracks(before, posted, old(taken));
    }
  }
}
