/** The delivery half of the job queue manager, seen from one client.

  `processClientQueue` is split at its awaits: waiting for a delivery result and waiting
  between two deliveries. The coroutine keeps a reference to its queue object, so after
  `clearClientQueue` it may hold a queue that is no longer in the map.
 */
module DeliveryQueue {
  import opened Wrappers

  const MAX_QUEUE_SIZE: nat := 50
  const STALE_MS: int := 3600000
  const LAST_RETRY_PRIORITY: int := -5

  // `initial` and `attempts` record the priority an entry came with and how often its
  // delivery was started.
  datatype Entry = Entry(id: nat, jobId: string, priority: int, initial: int, attempts: nat)

  datatype Queue = Queue(pending: seq<Entry>, isProcessing: bool, lastProcessedAt: int)

  datatype Phase = Delivering(entry: Entry) | Delaying

  // Locked(_, None) holds the queue in the map, Locked(_, Some(q)) one that was detached.
  datatype Worker = Unlocked | Locked(phase: Phase, detached: Option<Queue>)

  // Where entries have gone; `dropped` are the jobDeliveryFailed events.
  datatype History = History(accepted: multiset<nat>, delivered: seq<Entry>, dropped: seq<Entry>, cleared: seq<Entry>)

  datatype Slot = Slot(queue: Option<Queue>, worker: Worker, log: History)

  datatype Delivery = Delivered | Undelivered | Threw

  datatype Op =
    | Enqueue(id: nat, jobId: string, priority: int)
    | DeliveryEnds(result: Delivery, now: int)
    | DelayEnds
    | Clear
    | CleanupStale(now: int)

  const NEW_SLOT := Slot(None, Unlocked, History(multiset{}, [], [], []))

  // ---------------------------------------------------------------- steps

  // Before the first entry of lower priority.
  function Insert(pending: seq<Entry>, e: Entry): seq<Entry> {
    if pending == [] then [e]
    else if pending[0].priority < e.priority then [e] + pending
    else [pending[0]] + Insert(pending[1..], e)
  }

  function Held(s: Slot): Queue
    requires s.worker.Locked? && (s.worker.detached == None ==> s.queue.Some?)
  {
    if s.worker.detached.Some? then s.worker.detached.value else s.queue.value
  }

  // The worker writes to the queue it holds and goes on in the given phase; no phase
  // means that it leaves the loop and gives the lock back.
  function Resume(s: Slot, held: Queue, phase: Option<Phase>): Slot
    requires s.worker.Locked?
  {
    if s.worker.detached.Some? then
      s.(worker := if phase == None then Unlocked else Locked(phase.value, Some(held)))
    else
      s.(queue := Some(held), worker := if phase == None then Unlocked else Locked(phase.value, None))
  }

  // The head of the while loop.
  function NextDelivery(s: Slot, held: Queue): Slot
    requires s.worker.Locked?
  {
    if held.pending == [] then Resume(s, held.(isProcessing := false), None)
    else
      var job := held.pending[0];
      Resume(s, held.(pending := held.pending[1..]), Some(Delivering(job.(attempts := job.attempts + 1))))
  }

  function StepEnqueue(s: Slot, id: nat, jobId: string, priority: int): Slot {
    var q := s.queue.GetOr(Queue([], false, 0));
    if |q.pending| >= MAX_QUEUE_SIZE then s
    else
      var q' := q.(pending := Insert(q.pending, Entry(id, jobId, priority, priority, 0)));
      var s' := s.(queue := Some(q'), log := s.log.(accepted := s.log.accepted + multiset{id}));
      if s.worker.Locked? then s'
      else NextDelivery(s'.(worker := Locked(Delaying, None)), q'.(isProcessing := true))
  }

  // After a reported result: wait before the next delivery if there is one.
  function Pause(s: Slot, held: Queue): Slot
    requires s.worker.Locked?
  {
    if held.pending != [] then Resume(s, held, Some(Delaying)) else NextDelivery(s, held)
  }

  function OnDelivered(s: Slot, job: Entry, held: Queue, now: int): Slot
    requires s.worker.Locked?
  {
    Pause(s.(log := s.log.(delivered := s.log.delivered + [job])), held.(lastProcessedAt := now))
  }

  // Put back at the front with a lower priority, or dropped with an event.
  function OnUndelivered(s: Slot, job: Entry, held: Queue): Slot
    requires s.worker.Locked?
  {
    if job.priority > LAST_RETRY_PRIORITY then
      Pause(s, held.(pending := [job.(priority := job.priority - 1)] + held.pending))
    else Pause(s.(log := s.log.(dropped := s.log.dropped + [job])), held)
  }

  // An exception drops the job and goes on without a pause.
  function OnThrew(s: Slot, job: Entry, held: Queue): Slot
    requires s.worker.Locked?
  {
    NextDelivery(s.(log := s.log.(dropped := s.log.dropped + [job])), held)
  }

  function StepDeliveryEnds(s: Slot, result: Delivery, now: int): Slot
    requires s.worker.Locked? && (s.worker.detached == None ==> s.queue.Some?)
  {
    if !s.worker.phase.Delivering? then s
    else
      var job := s.worker.phase.entry;
      match result
      case Delivered => OnDelivered(s, job, Held(s), now)
      case Undelivered => OnUndelivered(s, job, Held(s))
      case Threw => OnThrew(s, job, Held(s))
  }

  function StepDelayEnds(s: Slot): Slot
    requires s.worker.Locked? && (s.worker.detached == None ==> s.queue.Some?)
  {
    if s.worker.phase.Delaying? then NextDelivery(s, Held(s)) else s
  }

  function StepClear(s: Slot): Slot {
    if s.queue == None then s
    else
      var q := s.queue.value;
      Slot(None,
           if s.worker.Locked? && s.worker.detached == None
           then s.worker.(detached := Some(Queue([], false, q.lastProcessedAt))) else s.worker,
           s.log.(cleared := s.log.cleared + q.pending))
  }

  function StepCleanupStale(s: Slot, now: int): Slot {
    if s.queue.Some? && s.queue.value.pending == [] && !s.queue.value.isProcessing
       && now - s.queue.value.lastProcessedAt > STALE_MS
    then s.(queue := None)
    else s
  }

  // The map and the lock agree: a queue is marked as processing exactly while the worker
  // holds it.
  ghost predicate Linked(s: Slot) {
    s.worker.Locked? && s.worker.detached == None <==> s.queue.Some? && s.queue.value.isProcessing
  }

  function Apply(s: Slot, op: Op): Slot
    requires Linked(s)
  {
    match op
    case Enqueue(id, jobId, priority) => StepEnqueue(s, id, jobId, priority)
    case DeliveryEnds(result, now) => if s.worker.Locked? then StepDeliveryEnds(s, result, now) else s
    case DelayEnds => if s.worker.Locked? then StepDelayEnds(s) else s
    case Clear => StepClear(s)
    case CleanupStale(now) => StepCleanupStale(s, now)
  }

  // ---------------------------------------------------------------- what every run keeps

  function Max(a: int, b: int): int { if a < b then b else a }

  function AttemptBound(priority: int): int { Max(1, priority + 6) }

  ghost function Count(es: seq<Entry>, id: nat): nat {
    if es == [] then 0 else (if es[0].id == id then 1 else 0) + Count(es[1..], id)
  }

  ghost function Pending(s: Slot, id: nat): nat {
    (if s.queue.Some? then Count(s.queue.value.pending, id) else 0)
    + (if s.worker.Locked? && s.worker.detached.Some? then Count(s.worker.detached.value.pending, id) else 0)
  }

  ghost function InFlight(s: Slot, id: nat): nat {
    if s.worker.Locked? && s.worker.phase.Delivering? && s.worker.phase.entry.id == id then 1 else 0
  }

  ghost function Gone(log: History, id: nat): nat {
    Count(log.delivered, id) + Count(log.dropped, id) + Count(log.cleared, id)
  }

  // Every accepted entry is in exactly one place: pending, in flight, delivered, dropped
  // with an event, or cleared.
  ghost predicate Conserved(s: Slot) {
    forall id: nat :: Found(s, id)
  }

  ghost predicate Found(s: Slot, id: nat) {
    s.log.accepted[id] == Pending(s, id) + InFlight(s, id) + Gone(s.log, id)
  }

  ghost predicate WaitingOk(e: Entry) {
    e.priority == e.initial - e.attempts && (0 < e.attempts ==> LAST_RETRY_PRIORITY <= e.priority)
  }

  ghost predicate FlyingOk(e: Entry) {
    && 0 < e.attempts && e.priority == e.initial - (e.attempts - 1)
    && (1 < e.attempts ==> LAST_RETRY_PRIORITY <= e.priority)
  }

  ghost predicate AllWaiting(es: seq<Entry>) {
    forall i :: 0 <= i < |es| ==> WaitingOk(es[i])
  }

  ghost predicate AllBounded(es: seq<Entry>) {
    forall i :: 0 <= i < |es| ==> 1 <= es[i].attempts <= AttemptBound(es[i].initial)
  }

  ghost predicate AllTried(es: seq<Entry>) {
    forall i :: 0 <= i < |es| ==> es[i].attempts <= AttemptBound(es[i].initial)
  }

  ghost predicate Retries(s: Slot) {
    && (s.queue.Some? ==> AllWaiting(s.queue.value.pending))
    && (s.worker.Locked? && s.worker.detached.Some? ==> AllWaiting(s.worker.detached.value.pending))
    && (s.worker.Locked? && s.worker.phase.Delivering? ==> FlyingOk(s.worker.phase.entry))
    && AllBounded(s.log.delivered) && AllBounded(s.log.dropped) && AllTried(s.log.cleared)
  }

  // Pending plus in flight, per queue. The put-back skips the size check, hence the + 1.
  ghost predicate SizeOk(s: Slot) {
    && (s.queue.Some? ==>
          |s.queue.value.pending|
          + (if s.worker.Locked? && s.worker.detached == None && s.worker.phase.Delivering? then 1 else 0)
          <= MAX_QUEUE_SIZE + 1)
    && (s.worker.Locked? && s.worker.detached.Some? ==>
          |s.worker.detached.value.pending| + (if s.worker.phase.Delivering? then 1 else 0) <= 1)
  }

  ghost predicate Inv(s: Slot) {
    Linked(s) && Retries(s) && SizeOk(s) && Conserved(s)
  }

  lemma {:induction false} InsertKeeps(pending: seq<Entry>, e: Entry)
    ensures |Insert(pending, e)| == |pending| + 1
    ensures AllWaiting(pending) && WaitingOk(e) ==> AllWaiting(Insert(pending, e))
  {
    if pending != [] && pending[0].priority >= e.priority {
      InsertKeeps(pending[1..], e);
      var rest := Insert(pending[1..], e);
      assert Insert(pending, e) == [pending[0]] + rest;
      assert ([pending[0]] + rest)[1..] == rest;
      if AllWaiting(pending) && WaitingOk(e) {
        assert AllWaiting(pending[1..]);
      }
    } else if pending != [] {
      assert ([e] + pending)[1..] == pending;
    }
  }

  // An entry goes behind every entry it must wait for and ahead of the first it may pass.
  lemma {:induction false} InsertPlaces(pending: seq<Entry>, e: Entry) returns (k: nat)
    ensures k <= |pending| && Insert(pending, e) == pending[..k] + [e] + pending[k..]
    ensures forall i :: 0 <= i < k ==> pending[i].priority >= e.priority
    ensures k < |pending| ==> pending[k].priority < e.priority
  {
    if pending == [] || pending[0].priority < e.priority {
      k := 0;
    } else {
      var j := InsertPlaces(pending[1..], e);
      k := j + 1;
      assert pending[..k] == [pending[0]] + pending[1..][..j];
      assert pending[k..] == pending[1..][j..];
    }
  }

  lemma {:induction false} CountInsert(pending: seq<Entry>, e: Entry, id: nat)
    ensures Count(Insert(pending, e), id) == Count(pending, id) + (if e.id == id then 1 else 0)
  {
    if pending != [] && pending[0].priority >= e.priority {
      CountInsert(pending[1..], e, id);
      assert ([pending[0]] + Insert(pending[1..], e))[1..] == Insert(pending[1..], e);
    } else {
      assert ([e] + pending)[1..] == pending;
    }
  }

  lemma {:induction false} CountAppend(a: seq<Entry>, b: seq<Entry>, id: nat)
    ensures Count(a + b, id) == Count(a, id) + Count(b, id)
  {
    if a == [] {
      assert a + b == b;
    } else {
      assert (a + b)[1..] == a[1..] + b;
      CountAppend(a[1..], b, id);
    }
  }

  lemma CountSnoc(a: seq<Entry>, e: Entry, id: nat)
    ensures Count(a + [e], id) == Count(a, id) + (if e.id == id then 1 else 0)
  {
    CountAppend(a, [e], id);
    assert [e][1..] == [];
  }

  // ---------------------------------------------------------------- conservation, one id at a time

  // Accepted minus found, which every step leaves alone.
  ghost function Missing(s: Slot, id: nat): int {
    s.log.accepted[id] - Pending(s, id) - InFlight(s, id) - Gone(s.log, id)
  }

  // Ids accounted for while the loop body has the held queue in its hands.
  ghost function MissingBetween(s: Slot, held: Queue, id: nat): int
    requires s.worker.Locked?
  {
    s.log.accepted[id] - Count(held.pending, id)
    - (if s.worker.detached.Some? && s.queue.Some? then Count(s.queue.value.pending, id) else 0)
    - Gone(s.log, id)
  }

  lemma NextDeliveryMoves(s: Slot, held: Queue, id: nat)
    requires s.worker.Locked?
    ensures Missing(NextDelivery(s, held), id) == MissingBetween(s, held, id)
    ensures Missing(Pause(s, held), id) == MissingBetween(s, held, id)
  {
  }

  lemma EnqueueMoves(s: Slot, newId: nat, jobId: string, priority: int, id: nat)
    requires Linked(s)
    ensures Missing(StepEnqueue(s, newId, jobId, priority), id) == Missing(s, id)
  {
    var q := s.queue.GetOr(Queue([], false, 0));
    if |q.pending| < MAX_QUEUE_SIZE {
      CountInsert(q.pending, Entry(newId, jobId, priority, priority, 0), id);
    }
  }

  lemma DeliveryEndsMoves(s: Slot, result: Delivery, now: int, id: nat)
    requires Linked(s) && s.worker.Locked?
    ensures Missing(StepDeliveryEnds(s, result, now), id) == Missing(s, id)
  {
    if s.worker.phase.Delivering? {
      var job, q := s.worker.phase.entry, Held(s);
      match result
      case Delivered =>
        CountSnoc(s.log.delivered, job, id);
        NextDeliveryMoves(s.(log := s.log.(delivered := s.log.delivered + [job])), q.(lastProcessedAt := now), id);
      case Undelivered =>
        UndeliveredMoves(s, id);
      case Threw =>
        CountSnoc(s.log.dropped, job, id);
        NextDeliveryMoves(s.(log := s.log.(dropped := s.log.dropped + [job])), q, id);
    }
  }

  lemma UndeliveredMoves(s: Slot, id: nat)
    requires Linked(s) && s.worker.Locked? && s.worker.phase.Delivering?
    ensures Missing(OnUndelivered(s, s.worker.phase.entry, Held(s)), id) == Missing(s, id)
  {
    var job, q := s.worker.phase.entry, Held(s);
    if job.priority > LAST_RETRY_PRIORITY {
      var back := job.(priority := job.priority - 1);
      assert ([back] + q.pending)[1..] == q.pending;
      NextDeliveryMoves(s, q.(pending := [back] + q.pending), id);
    } else {
      CountSnoc(s.log.dropped, job, id);
      NextDeliveryMoves(s.(log := s.log.(dropped := s.log.dropped + [job])), q, id);
    }
  }

  lemma ApplyMoves(s: Slot, op: Op, id: nat)
    requires Linked(s)
    ensures Missing(Apply(s, op), id) == Missing(s, id)
  {
    match op
    case Enqueue(newId, jobId, priority) => EnqueueMoves(s, newId, jobId, priority, id);
    case DeliveryEnds(result, now) => if s.worker.Locked? { DeliveryEndsMoves(s, result, now, id); }
    case DelayEnds => if s.worker.Locked? && s.worker.phase.Delaying? { NextDeliveryMoves(s, Held(s), id); }
    case Clear => if s.queue.Some? { CountAppend(s.log.cleared, s.queue.value.pending, id); }
    case CleanupStale(now) =>
  }

  // ---------------------------------------------------------------- retries and sizes

  ghost predicate Bounds(s: Slot) {
    Linked(s) && Retries(s) && SizeOk(s)
  }

  lemma EnqueueKeepsBounds(s: Slot, id: nat, jobId: string, priority: int)
    requires Bounds(s)
    ensures Bounds(StepEnqueue(s, id, jobId, priority))
  {
    InsertKeeps(s.queue.GetOr(Queue([], false, 0)).pending, Entry(id, jobId, priority, priority, 0));
  }

  lemma UndeliveredKeepsBounds(s: Slot)
    requires Bounds(s) && s.worker.Locked? && s.worker.phase.Delivering?
    ensures Bounds(OnUndelivered(s, s.worker.phase.entry, Held(s)))
  {
  }

  lemma DeliveryEndsKeepsBounds(s: Slot, result: Delivery, now: int)
    requires Bounds(s) && s.worker.Locked?
    ensures Bounds(StepDeliveryEnds(s, result, now))
  {
    if s.worker.phase.Delivering? && result.Undelivered? {
      UndeliveredKeepsBounds(s);
    }
  }

  lemma ApplyKeepsInv(s: Slot, op: Op)
    requires Inv(s)
    ensures Inv(Apply(s, op))
  {
    match op {
      case Enqueue(id, jobId, priority) => EnqueueKeepsBounds(s, id, jobId, priority);
      case DeliveryEnds(result, now) => if s.worker.Locked? { DeliveryEndsKeepsBounds(s, result, now); }
      case DelayEnds =>
      case Clear =>
      case CleanupStale(now) =>
    }
    forall id: nat ensures Found(Apply(s, op), id) {
      assert Found(s, id);
      ApplyMoves(s, op, id);
    }
  }

  ghost function Run(s: Slot, ops: seq<Op>): Slot
    requires Inv(s)
    decreases |ops|
  {
    if ops == [] then s
    else
      ApplyKeepsInv(s, ops[0]);
      Run(Apply(s, ops[0]), ops[1..])
  }

  // Over every run: no entry is lost or doubled, none is tried more than max(1, p + 6)
  // times, and no queue exceeds MAX_QUEUE_SIZE + 1.
  lemma {:induction false} RunKeepsInv(s: Slot, ops: seq<Op>)
    requires Inv(s)
    ensures Inv(Run(s, ops))
    decreases |ops|
  {
    if ops != [] {
      ApplyKeepsInv(s, ops[0]);
      RunKeepsInv(Apply(s, ops[0]), ops[1..]);
    }
  }

  // Wherever an entry can be.
  ghost predicate Somewhere(s: Slot, e: Entry) {
    || (s.queue.Some? && e in s.queue.value.pending)
    || (s.worker.Locked? && s.worker.detached.Some? && e in s.worker.detached.value.pending)
    || (s.worker.Locked? && s.worker.phase == Delivering(e))
    || e in s.log.delivered || e in s.log.dropped || e in s.log.cleared
  }

  lemma InvSpelledOut(s: Slot)
    requires Inv(s)
    ensures forall id: nat :: s.log.accepted[id] == Pending(s, id) + InFlight(s, id) + Gone(s.log, id)
    ensures forall e :: Somewhere(s, e) ==> e.attempts <= Max(1, e.initial + 6)
    ensures forall e :: e in s.log.delivered || e in s.log.dropped ==> 1 <= e.attempts
    ensures s.queue.Some? ==> |s.queue.value.pending| <= MAX_QUEUE_SIZE + 1
    ensures s.worker.Locked? && s.worker.detached == None && s.worker.phase.Delivering? ==>
              s.queue.Some? && |s.queue.value.pending| + 1 <= MAX_QUEUE_SIZE + 1
  {
    forall id: nat ensures s.log.accepted[id] == Pending(s, id) + InFlight(s, id) + Gone(s.log, id) {
      assert Found(s, id);
    }
  }

  // The same for a client that starts with nothing.
  lemma EveryRun(ops: seq<Op>)
    ensures Inv(NEW_SLOT)
    ensures var s := Run(NEW_SLOT, ops);
            && (forall id: nat :: s.log.accepted[id] == Pending(s, id) + InFlight(s, id) + Gone(s.log, id))
            && (forall e :: Somewhere(s, e) ==> e.attempts <= Max(1, e.initial + 6))
            && (forall e :: e in s.log.delivered || e in s.log.dropped ==> 1 <= e.attempts)
            && (s.queue.Some? ==> |s.queue.value.pending| <= MAX_QUEUE_SIZE + 1)
            && (s.worker.Locked? && s.worker.detached == None && s.worker.phase.Delivering? ==>
                  s.queue.Some? && |s.queue.value.pending| + 1 <= MAX_QUEUE_SIZE + 1)
  {
    NewSlotInv();
    RunKeepsInv(NEW_SLOT, ops);
    InvSpelledOut(Run(NEW_SLOT, ops));
  }

  // ---------------------------------------------------------------- the drain loop ends

  ghost function Work(es: seq<Entry>): nat {
    if es == [] then 0 else AttemptBound(es[0].priority) + Work(es[1..])
  }

  // Twice the deliveries still possible, and one for a pause.
  ghost function Rank(s: Slot): nat
    requires Linked(s)
  {
    if s.worker == Unlocked then 0
    else 2 * Work(Held(s).pending)
         + (if s.worker.phase.Delivering? then 2 * AttemptBound(s.worker.phase.entry.priority) else 1)
  }

  // The next event of the worker: the delivery under way ends as told, or the pause ends.
  function WorkerStep(s: Slot, result: Delivery): Slot
    requires Linked(s) && s.worker.Locked?
  {
    if s.worker.phase.Delivering? then StepDeliveryEnds(s, result, 0) else StepDelayEnds(s)
  }

  lemma WorkerStepProgress(s: Slot, result: Delivery)
    requires Linked(s) && s.worker.Locked?
    ensures Linked(WorkerStep(s, result)) && Rank(WorkerStep(s, result)) < Rank(s)
    ensures WorkerStep(s, result).worker == Unlocked && s.worker.detached == None ==>
              WorkerStep(s, result).queue.value.pending == []
  {
    if s.worker.phase.Delivering? {
      var job, q := s.worker.phase.entry, Held(s);
      assert ([job.(priority := job.priority - 1)] + q.pending)[1..] == q.pending;
    }
  }

  ghost function RunWorker(s: Slot, results: seq<Delivery>): Slot
    requires Linked(s)
    decreases |results|
  {
    if s.worker == Unlocked || results == [] then s
    else
      WorkerStepProgress(s, results[0]);
      RunWorker(WorkerStep(s, results[0]), results[1..])
  }

  // With no arrivals the worker gives the lock back within Rank(s) events, whatever the
  // deliveries report and whether or not its queue is detached. It leaves a queue that is
  // still in the map empty, and a detached worker leaves the map's queue as it was.
  lemma {:induction false} DrainEnds(s: Slot, results: seq<Delivery>)
    requires Linked(s) && s.worker.Locked? && Rank(s) <= |results|
    ensures RunWorker(s, results).worker == Unlocked
    ensures s.worker.detached == None ==>
              RunWorker(s, results).queue.Some? && RunWorker(s, results).queue.value.pending == []
    ensures s.worker.detached.Some? ==> RunWorker(s, results).queue == s.queue
    decreases |results|
  {
    WorkerStepProgress(s, results[0]);
    var s' := WorkerStep(s, results[0]);
    if s'.worker.Locked? {
      DrainEnds(s', results[1..]);
    }
  }

  // A failed delivery with retries left comes next again, ahead of everything that was
  // waiting; without retries left it is dropped and the next entry is tried.
  lemma RetriesComeNext(s: Slot, now: int)
    requires Linked(s) && s.worker.Locked? && s.worker.phase.Delivering?
    ensures var job := s.worker.phase.entry;
            var s1 := StepDeliveryEnds(s, Undelivered, now);
            if job.priority > LAST_RETRY_PRIORITY then
              && Linked(s1) && s1.worker.Locked?
              && var s2 := StepDelayEnds(s1);
              && s2.worker.Locked?
              && s2.worker.phase == Delivering(job.(priority := job.priority - 1, attempts := job.attempts + 1))
              && Held(s2).pending == Held(s).pending
            else job in s1.log.dropped
  {
    var job, q := s.worker.phase.entry, Held(s);
    var back := job.(priority := job.priority - 1);
    assert ([back] + q.pending)[1..] == q.pending;
  }

  // How the end of a delivery is booked: delivered, put back, or dropped, the last when it
  // threw or when no retries are left.
  lemma DeliveryIsBooked(s: Slot, result: Delivery, now: int)
    requires Linked(s) && s.worker.Locked? && s.worker.phase.Delivering?
    ensures var job, s' := s.worker.phase.entry, StepDeliveryEnds(s, result, now);
            var dropped := result.Threw? || (result.Undelivered? && job.priority <= -5);
            && s'.log.delivered == s.log.delivered + (if result.Delivered? then [job] else [])
            && s'.log.dropped == s.log.dropped + (if dropped then [job] else [])
            && s'.log.accepted == s.log.accepted && s'.log.cleared == s.log.cleared
            && (result.Delivered? && s'.worker.Locked? ==> Linked(s') && Held(s').lastProcessedAt == now)
  {
  }

  // What the worker does next: nothing if its queue is empty, a pause after a reported
  // result, and otherwise the entry at the front.
  lemma FrontIsNext(s: Slot, result: Delivery, now: int)
    requires Linked(s) && s.worker.Locked?
    ensures var rest := Held(s).pending;
            var s' := WorkerStep(s, result);
            if s.worker.phase.Delaying? || result.Threw? then
              if rest == [] then s'.worker == Unlocked
              else
                && Linked(s') && s'.worker.Locked?
                && s'.worker.phase == Delivering(rest[0].(attempts := rest[0].attempts + 1))
                && Held(s').pending == rest[1..]
            else if result.Delivered? && rest != [] then
              Linked(s') && s'.worker.Locked? && s'.worker.phase == Delaying && Held(s').pending == rest
            else result.Delivered? ==> s'.worker == Unlocked
  {
  }

  // An arrival is refused at fifty pending entries. Otherwise it is put in its place, and an
  // idle client starts with the front of its queue.
  lemma EnqueueAccepts(s: Slot, id: nat, jobId: string, priority: int)
    requires Linked(s)
    ensures var before := if s.queue.Some? then s.queue.value.pending else [];
            var with := Insert(before, Entry(id, jobId, priority, priority, 0));
            var s' := StepEnqueue(s, id, jobId, priority);
            if |before| >= 50 then s' == s
            else
              && s'.log == s.log.(accepted := s.log.accepted + multiset{id})
              && s'.queue.Some? && with != []
              && if s.worker.Locked? then s'.queue.value.pending == with && s'.worker == s.worker
                 else s'.queue.value.pending == with[1..]
                      && s'.worker == Locked(Delivering(with[0].(attempts := with[0].attempts + 1)), None)
  {
  }

  // Clearing takes the queue out of the map and books what was pending; an entry under
  // delivery stays with its worker.
  lemma ClearDiscards(s: Slot)
    requires Linked(s)
    ensures var s' := StepClear(s);
            && s'.queue == None
            && s'.log == s.log.(cleared := s.log.cleared + if s.queue.Some? then s.queue.value.pending else [])
            && (s.worker.Locked? <==> s'.worker.Locked?)
            && (s.worker.Locked? ==>
                  && s'.worker.phase == s.worker.phase
                  && Held(s') == if s.worker.detached.Some? then s.worker.detached.value
                                 else Queue([], false, s.queue.value.lastProcessedAt))
  {
  }

  // ---------------------------------------------------------------- lost wakeups

  // Entries wait and nobody is going to deliver them.
  ghost predicate Stranded(s: Slot) {
    s.worker == Unlocked && s.queue.Some? && s.queue.value.pending != []
  }

  ghost predicate Awake(s: Slot) {
    !Stranded(s) && (s.worker.Locked? ==> s.worker.detached == None)
  }

  // The event after which a worker has nothing left to do with an empty queue.
  predicate LastEvent(phase: Phase, op: Op) {
    match op
    case DelayEnds => phase.Delaying?
    case DeliveryEnds(result, _) =>
      phase.Delivering? && !(result.Undelivered? && phase.entry.priority > LAST_RETRY_PRIORITY)
    case _ => false
  }

  // A step strands entries exactly when it is the last event of a worker whose queue is
  // detached and empty, while the queue in the map is not empty.
  lemma StrandsExactly(s: Slot, op: Op)
    requires Inv(s) && !Stranded(s)
    ensures Stranded(Apply(s, op)) <==>
              && s.worker.Locked? && s.worker.detached.Some?
              && s.worker.detached.value.pending == []
              && LastEvent(s.worker.phase, op)
              && s.queue.Some? && s.queue.value.pending != []
  {
    match op
    case Enqueue(id, jobId, priority) =>
      InsertKeeps(s.queue.GetOr(Queue([], false, 0)).pending, Entry(id, jobId, priority, priority, 0));
    case DeliveryEnds(result, now) =>
    case DelayEnds =>
    case Clear =>
    case CleanupStale(now) =>
  }

  ghost predicate NeverClearedWhileLocked(s: Slot, ops: seq<Op>)
    requires Inv(s)
    decreases |ops|
  {
    ops != [] ==>
      && !(ops[0].Clear? && s.worker.Locked?)
      && (ApplyKeepsInv(s, ops[0]); NeverClearedWhileLocked(Apply(s, ops[0]), ops[1..]))
  }

  // In a run where no queue is cleared while its client is being processed, an unlocked
  // client has an empty queue.
  lemma {:induction false} NoLostWakeup(s: Slot, ops: seq<Op>)
    requires Inv(s) && Awake(s) && NeverClearedWhileLocked(s, ops)
    ensures Awake(Run(s, ops))
    decreases |ops|
  {
    if ops != [] {
      ApplyKeepsInv(s, ops[0]);
      StrandsExactly(s, ops[0]);
      NoLostWakeup(Apply(s, ops[0]), ops[1..]);
    }
  }

  // Clearing during a delivery does lose a wakeup: an entry that arrives before the
  // delivery ends has no worker afterwards.
  lemma ClearWhileDeliveringStrands(s: Slot, id: nat, jobId: string, priority: int, now: int)
    requires Inv(s) && s.worker.Locked? && s.worker.phase.Delivering? && s.worker.detached == None
    ensures var s1 := Apply(s, Clear);
            Linked(s1) &&
            var s2 := Apply(s1, Enqueue(id, jobId, priority));
            Linked(s2) &&
            var s3 := Apply(s2, DeliveryEnds(Delivered, now));
            Stranded(s3) && Pending(s3, id) == 1
  {
    var e := Entry(id, jobId, priority, priority, 0);
    var s1 := Apply(s, Clear);
    var s2 := Apply(s1, Enqueue(id, jobId, priority));
    assert s2.queue == Some(Queue([e], false, 0)) by {
      assert Insert([], e) == [e];
    }
    var s3 := Apply(s2, DeliveryEnds(Delivered, now));
    assert s3.queue == s2.queue && s3.worker == Unlocked;
    assert [e][1..] == [];
    assert Count([e], id) == 1;
  }

  // The next accepted entry picks the stranded ones up again.
  lemma EnqueueWakes(s: Slot, id: nat, jobId: string, priority: int)
    requires Inv(s) && Stranded(s) && |s.queue.value.pending| < MAX_QUEUE_SIZE
    ensures Awake(StepEnqueue(s, id, jobId, priority))
    ensures forall other: nat :: Pending(s, other) <= Pending(StepEnqueue(s, id, jobId, priority), other)
                                                   + InFlight(StepEnqueue(s, id, jobId, priority), other)
  {
    InsertKeeps(s.queue.value.pending, Entry(id, jobId, priority, priority, 0));
    forall other: nat
      ensures Pending(s, other) <= Pending(StepEnqueue(s, id, jobId, priority), other)
                                   + InFlight(StepEnqueue(s, id, jobId, priority), other)
    {
      CountInsert(s.queue.value.pending, Entry(id, jobId, priority, priority, 0), other);
    }
  }

  // A clean-up removes exactly an empty queue that is not being processed and that nothing
  // was delivered from for more than an hour; no worker ever holds such a queue.
  lemma StaleCleanupDiscardsNothing(s: Slot, now: int)
    requires Inv(s)
    ensures var s' := StepCleanupStale(s, now);
            && s'.worker == s.worker && s'.log == s.log
            && s'.queue == (if s.queue.Some? && s.queue.value.pending == [] && !s.queue.value.isProcessing
                               && now - s.queue.value.lastProcessedAt > 3600000
                            then None else s.queue)
            && (s' != s && s.worker.Locked? ==> s.worker.detached.Some?)
  {
  }

  // ---------------------------------------------------------------- the size bound is reached

  // A step takes the queue in the map over its limit exactly when a failed delivery goes
  // back into a full one.
  lemma OverLimitExactly(s: Slot, op: Op)
    requires Inv(s) && (s.queue.Some? ==> |s.queue.value.pending| <= MAX_QUEUE_SIZE)
    ensures var s' := Apply(s, op);
            (s'.queue.Some? && |s'.queue.value.pending| > MAX_QUEUE_SIZE) <==>
              && s.worker.Locked? && s.worker.detached == None && s.worker.phase.Delivering?
              && s.worker.phase.entry.priority > LAST_RETRY_PRIORITY
              && op.DeliveryEnds? && op.result.Undelivered?
              && s.queue.Some? && |s.queue.value.pending| == MAX_QUEUE_SIZE
  {
    match op
    case Enqueue(id, jobId, priority) =>
      InsertKeeps(s.queue.GetOr(Queue([], false, 0)).pending, Entry(id, jobId, priority, priority, 0));
    case _ =>
  }

  function Arrivals(n: nat): seq<Op> {
    if n == 0 then [] else Arrivals(n - 1) + [Enqueue(n, "job", 0)]
  }

  lemma {:induction false} RunAppend(s: Slot, a: seq<Op>, op: Op)
    requires Inv(s)
    ensures Inv(Run(s, a)) && Run(s, a + [op]) == Apply(Run(s, a), op)
    decreases |a|
  {
    RunKeepsInv(s, a);
    if a == [] {
      assert a + [op] == [op];
      ApplyKeepsInv(s, op);
      assert Run(s, [op]) == Run(Apply(s, op), []);
    } else {
      assert (a + [op])[0] == a[0] && (a + [op])[1..] == a[1..] + [op];
      ApplyKeepsInv(s, a[0]);
      RunAppend(Apply(s, a[0]), a[1..], op);
    }
  }

  lemma NewSlotInv()
    ensures Inv(NEW_SLOT) && Awake(NEW_SLOT)
  {
    forall id: nat ensures Found(NEW_SLOT, id) {
    }
  }

  lemma ArrivalPiles(s: Slot, n: nat)
    requires Inv(s) && s.worker.Locked? && s.worker.detached == None && s.queue.Some?
    requires |s.queue.value.pending| < MAX_QUEUE_SIZE
    ensures var s' := Apply(s, Enqueue(n, "job", 0));
            s'.worker == s.worker && s'.queue.Some? && |s'.queue.value.pending| == |s.queue.value.pending| + 1
  {
    InsertKeeps(s.queue.value.pending, Entry(n, "job", 0, 0, 0));
  }

  lemma FirstArrivalIsDelivered()
    ensures var s := Apply(NEW_SLOT, Enqueue(1, "job", 0));
            && s.worker == Locked(Delivering(Entry(1, "job", 0, 0, 1)), None)
            && s.queue == Some(Queue([], true, 0))
  {
    var e := Entry(1, "job", 0, 0, 0);
    assert Insert([], e) == [e];
    assert [e][1..] == [];
  }

  lemma {:induction false} ArrivalsPile(n: nat)
    requires 1 <= n <= MAX_QUEUE_SIZE + 1
    requires Inv(NEW_SLOT)
    ensures var s := Run(NEW_SLOT, Arrivals(n));
            && Inv(s)
            && s.worker == Locked(Delivering(Entry(1, "job", 0, 0, 1)), None)
            && s.queue.Some? && |s.queue.value.pending| == n - 1
  {
    RunAppend(NEW_SLOT, Arrivals(n - 1), Enqueue(n, "job", 0));
    RunKeepsInv(NEW_SLOT, Arrivals(n));
    if n == 1 {
      FirstArrivalIsDelivered();
    } else {
      ArrivalsPile(n - 1);
      ArrivalPiles(Run(NEW_SLOT, Arrivals(n - 1)), n);
    }
  }

  lemma ReturnFills(s: Slot, job: Entry)
    requires s.worker == Locked(Delivering(job), None) && s.queue.Some? && job.priority > LAST_RETRY_PRIORITY
    ensures var s' := StepDeliveryEnds(s, Undelivered, 0);
            s'.queue.Some? && |s'.queue.value.pending| == |s.queue.value.pending| + 1
  {
  }

  // With one delivery under way and a queue behind it, a delivery that comes back makes
  // the queue one longer.
  lemma ComesBack(start: Slot, arrivals: seq<Op>, job: Entry)
    requires Inv(start)
    requires Inv(Run(start, arrivals))
    requires var s := Run(start, arrivals);
             s.worker == Locked(Delivering(job), None) && s.queue.Some? && job.priority > LAST_RETRY_PRIORITY
    ensures var ops := arrivals + [DeliveryEnds(Undelivered, 0)];
            && Inv(Run(start, ops)) && Run(start, ops).queue.Some?
            && |Run(start, ops).queue.value.pending| == |Run(start, arrivals).queue.value.pending| + 1
  {
    RunAppend(start, arrivals, DeliveryEnds(Undelivered, 0));
    ReturnFills(Run(start, arrivals), job);
    ApplyKeepsInv(Run(start, arrivals), DeliveryEnds(Undelivered, 0));
  }

  // The bound is tight: fifty-one arrivals and one failed delivery reach it.
  lemma SizeBoundIsReached()
    ensures exists ops :: Inv(NEW_SLOT) && Inv(Run(NEW_SLOT, ops)) && Run(NEW_SLOT, ops).queue.Some?
              && |Run(NEW_SLOT, ops).queue.value.pending| == MAX_QUEUE_SIZE + 1
  {
    var n := MAX_QUEUE_SIZE + 1;
    var arrivals := Arrivals(n);
    NewSlotInv();
    ArrivalsPile(n);
    ComesBack(NEW_SLOT, arrivals, Entry(1, "job", 0, 0, 1));
  }
}
