/** The job queue manager as the object it is: maps, queue objects shared with a running
  coroutine, waiters and counters. Its methods are proved against the step functions of
  DeliveryQueue, client by client, and of JobWaiters.
 */
module JobQueueManager {
  import opened Wrappers
  import D = DeliveryQueue
  import W = JobWaiters

  class ClientJobQueue {
    const clientId: string
    var pendingJobs: seq<D.Entry>
    var isProcessing: bool
    var lastProcessedAt: int

    constructor (clientId: string)
      ensures this.clientId == clientId
      ensures pendingJobs == [] && !isProcessing && lastProcessedAt == 0
    {
      this.clientId := clientId;
      pendingJobs, isProcessing, lastProcessedAt := [], false, 0;
    }

    function View(): D.Queue
      reads this
    {
      D.Queue(pendingJobs, isProcessing, lastProcessedAt)
    }

    static method FindLower(pending: seq<D.Entry>, e: D.Entry) returns (k: int)
      ensures -1 <= k < |pending|
      ensures D.Insert(pending, e) == if k == -1 then pending + [e] else pending[..k] + [e] + pending[k..]
    {
      k := 0;
      while k < |pending| && pending[k].priority >= e.priority
        invariant 0 <= k <= |pending|
        invariant forall i :: 0 <= i < k ==> pending[i].priority >= e.priority
      {
        k := k + 1;
      }
      InsertAt(pending, e, k);
      if k == |pending| {
        assert pending[..k] + [e] + pending[k..] == pending + [e];
        k := -1;
      }
    }

    // splice at the first entry of lower priority, or push.
    method InsertByPriority(job: D.Entry)
      modifies this`pendingJobs
      ensures pendingJobs == D.Insert(old(pendingJobs), job) && pendingJobs != []
    {
      var k := FindLower(pendingJobs, job);
      if k == -1 {
        pendingJobs := pendingJobs + [job];
      } else {
        pendingJobs := pendingJobs[..k] + [job] + pendingJobs[k..];
      }
    }
  }

  // A coroutine inside processClientQueue; the keys of `workers` are the processing locks.
  datatype Coroutine = Coroutine(queue: ClientJobQueue, phase: D.Phase)

  class JobQueueManager {
    var clientQueues: map<string, ClientJobQueue>
    var workers: map<string, Coroutine>
    var nextEntry: nat
    var waitingJobs: map<string, W.Waiter>
    var clientJobCounts: map<string, int>
    var timers: map<nat, W.Timer>
    var waitCalls: nat
    ghost var settled: seq<W.Settlement>
    ghost var logs: map<string, D.History>

    ghost function Waiters(): W.State
      reads this
    {
      W.State(waitingJobs, clientJobCounts, timers, waitCalls, settled)
    }

    // The queue objects a client's state lives in.
    ghost function QueuesOf(c: string): set<ClientJobQueue>
      reads this
    {
      (if c in clientQueues then {clientQueues[c]} else {}) + (if c in workers then {workers[c].queue} else {})
    }

    ghost function Queues(): set<ClientJobQueue>
      reads this
    {
      clientQueues.Values + (set c | c in workers :: workers[c].queue)
    }

    ghost predicate Sane(c: string)
      reads this, QueuesOf(c)
    {
      D.Inv(Client(c))
    }

    // What every call keeps, for every client and for the waiters.
    ghost predicate Valid()
      reads this, Queues()
    {
      Filed() && (forall c :: Sane(c)) && W.Inv(Waiters())
    }

    // Every queue object belongs to the client it is filed under.
    ghost predicate Filed()
      reads this
    {
      && (forall c :: c in clientQueues ==> clientQueues[c].clientId == c)
      && (forall c :: c in workers ==> workers[c].queue.clientId == c)
    }

    // What the manager looks like to one client.
    ghost function Client(c: string): D.Slot
      reads this, QueuesOf(c)
    {
      D.Slot(
        if c in clientQueues then Some(clientQueues[c].View()) else None,
        if c !in workers then D.Unlocked
        else D.Locked(workers[c].phase,
                      if c in clientQueues && clientQueues[c] == workers[c].queue then None
                      else Some(workers[c].queue.View())),
        if c in logs then logs[c] else D.NEW_SLOT.log)
    }

    // The maps are as they were, except perhaps for one client.
    twostate predicate OnlyConcerns(c: string)
      reads this
    {
      && clientQueues - {c} == old(clientQueues) - {c}
      && workers - {c} == old(workers) - {c}
      && logs - {c} == old(logs) - {c}
      && Waiters() == old(Waiters())
    }

    twostate lemma OthersSeeNothing(c: string)
      requires old(Filed()) && Filed() && OnlyConcerns(c)
      requires forall q: ClientJobQueue :: old(allocated(q)) && q.clientId != c ==> unchanged(q)
      ensures forall d :: d != c ==> Client(d) == old(Client(d))
    {
      forall d | d != c ensures Client(d) == old(Client(d)) {
        assert d in clientQueues <==> d in clientQueues - {c};
        assert d in old(clientQueues) <==> d in old(clientQueues) - {c};
        assert d in workers <==> d in workers - {c};
        assert d in old(workers) <==> d in old(workers) - {c};
        assert d in logs <==> d in logs - {c};
        assert d in old(logs) <==> d in old(logs) - {c};
        if d in clientQueues {
          assert clientQueues[d] == (clientQueues - {c})[d] == old(clientQueues)[d];
        }
        if d in workers {
          assert workers[d] == (workers - {c})[d] == old(workers)[d];
        }
        if d in logs {
          assert logs[d] == (logs - {c})[d] == old(logs)[d];
        }
      }
    }

    // A call that leaves one client sane and is invisible to the others.
    twostate lemma StaysValid(c: string)
      requires old(Valid()) && Filed() && W.Inv(Waiters()) && Sane(c)
      requires forall d :: d != c ==> Client(d) == old(Client(d))
      ensures Valid()
    {
      forall d ensures Sane(d) {
        assert old(Sane(d));
      }
    }

    // A call that concerns the waiters only.
    twostate lemma WaitersStayValid(op: W.Op)
      requires old(Valid()) && Filed() && forall d :: Client(d) == old(Client(d))
      requires W.Collected(old(Waiters()), op) && Waiters() == W.Apply(old(Waiters()), op)
      ensures Valid()
    {
      W.ApplyKeepsInv(old(Waiters()), op);
      forall d ensures Sane(d) {
        assert old(Sane(d));
      }
    }

    // At any time, for every client: no entry is lost or doubled or tried too often, no queue
    // grows beyond the limit plus one, and the counters and timers are those of its waiters.
    lemma EveryClientIsServedRight(c: string)
      requires Valid()
      ensures var s := Client(c);
              && (forall id: nat :: s.log.accepted[id] == D.Pending(s, id) + D.InFlight(s, id) + D.Gone(s.log, id))
              && (forall e :: D.Somewhere(s, e) ==> e.attempts <= D.Max(1, e.initial + 6))
              && (c in clientQueues ==> |clientQueues[c].pendingJobs| <= D.MAX_QUEUE_SIZE + 1)
      ensures W.CountOf(clientJobCounts, c) == |W.JobsOf(waitingJobs, c)|
      ensures forall j :: j in waitingJobs ==> waitingJobs[j].call in timers
    {
      assert Sane(c);
      D.InvSpelledOut(Client(c));
    }

    constructor ()
      ensures Valid() && Waiters() == W.IDLE
      ensures forall c :: Client(c) == D.NEW_SLOT
    {
      clientQueues, workers, nextEntry := map[], map[], 0;
      waitingJobs, clientJobCounts, timers, waitCalls := map[], map[], map[], 0;
      settled, logs := [], map[];
      new;
      D.NewSlotInv();
      W.IdleInv();
      forall c ensures Client(c) == D.NEW_SLOT && Sane(c) {
      }
    }

    // ------------------------------------------------------------ delivery

    // The queue of the client, created if needed, with the job spliced or pushed in.
    method Accept(c: string, job: D.Entry)
      requires Filed()
      modifies this`clientQueues, this`logs, QueuesOf(c)
      ensures Filed() && OnlyConcerns(c)
      ensures c in clientQueues && clientQueues[c].pendingJobs != []
      ensures clientQueues[c] in old(QueuesOf(c)) || fresh(clientQueues[c])
      ensures var before := old(Client(c));
              var q := before.queue.GetOr(D.Queue([], false, 0));
              Client(c) == before.(
                queue := Some(q.(pending := D.Insert(q.pending, job))),
                log := before.log.(accepted := before.log.accepted + multiset{job.id}))
      ensures forall d :: d != c ==> Client(d) == old(Client(d))
    {
      ghost var log := Client(c).log;
      if c !in clientQueues {
        var created := new ClientJobQueue(c);
        clientQueues := clientQueues[c := created];
      }
      clientQueues[c].InsertByPriority(job);
      logs := logs[c := log.(accepted := log.accepted + multiset{job.id})];
      OthersSeeNothing(c);
    }

    // Takes the lock if it is free and starts the loop.
    method ProcessClientQueue(c: string)
      requires Filed() && c in clientQueues && clientQueues[c].pendingJobs != []
      modifies this`workers, QueuesOf(c)
      ensures Filed() && OnlyConcerns(c)
      ensures Client(c) ==
              if old(c in workers) then old(Client(c))
              else D.NextDelivery(old(Client(c)).(worker := D.Locked(D.Delaying, None)),
                                  old(clientQueues[c].View()).(isProcessing := true))
      ensures forall d :: d != c ==> Client(d) == old(Client(d))
    {
      if c in workers {
        return;
      }
      var queue := clientQueues[c];
      workers := workers[c := Coroutine(queue, D.Delaying)];
      queue.isProcessing := true;
      Loop(c);
      OthersSeeNothing(c);
    }

    // The loop from its test to its next await or its end.
    method Loop(c: string)
      requires Filed() && c in workers
      modifies this`workers, QueuesOf(c)
      ensures Filed() && OnlyConcerns(c)
      ensures Client(c) == D.NextDelivery(old(Client(c)), old(workers[c].queue.View()))
      ensures forall d :: d != c ==> Client(d) == old(Client(d))
    {
      var queue := workers[c].queue;
      if queue.pendingJobs != [] {
        var job := queue.pendingJobs[0];
        queue.pendingJobs := queue.pendingJobs[1..];
        workers := workers[c := Coroutine(queue, D.Delivering(job.(attempts := job.attempts + 1)))];
      } else {
        queue.isProcessing := false;
        workers := workers - {c};
      }
      OthersSeeNothing(c);
    }

    method AcceptAndProcess(c: string, id: nat, jobId: string, priority: int)
      requires Filed()
      requires |Client(c).queue.GetOr(D.Queue([], false, 0)).pending| < D.MAX_QUEUE_SIZE
      modifies this`clientQueues, this`workers, this`logs, QueuesOf(c)
      ensures Filed() && OnlyConcerns(c)
      ensures Client(c) == D.StepEnqueue(old(Client(c)), id, jobId, priority)
      ensures forall d :: d != c ==> Client(d) == old(Client(d))
    {
      Accept(c, D.Entry(id, jobId, priority, priority, 0));
      ProcessClientQueue(c);
    }

    // Refused at the limit; otherwise accepted under a new id.
    method AcceptIfRoom(c: string, jobId: string, priority: int) returns (ok: bool)
      requires Filed()
      modifies this, QueuesOf(c)
      ensures Filed() && Waiters() == old(Waiters())
      ensures ok <==> |old(Client(c)).queue.GetOr(D.Queue([], false, 0)).pending| < D.MAX_QUEUE_SIZE
      ensures Client(c) == D.StepEnqueue(old(Client(c)), old(nextEntry), jobId, priority)
      ensures forall d :: d != c ==> Client(d) == old(Client(d))
    {
      if c in clientQueues && |clientQueues[c].pendingJobs| >= D.MAX_QUEUE_SIZE {
        return false;
      }
      var id := nextEntry;
      nextEntry := nextEntry + 1;
      AcceptAndProcess(c, id, jobId, priority);
      OthersSeeNothing(c);
      return true;
    }

    method QueueJobForClient(c: string, jobId: string, priority: int) returns (ok: bool)
      requires Valid()
      modifies this, QueuesOf(c)
      ensures Valid() && Waiters() == old(Waiters())
      ensures ok <==> |old(Client(c)).queue.GetOr(D.Queue([], false, 0)).pending| < D.MAX_QUEUE_SIZE
      ensures Client(c) == D.StepEnqueue(old(Client(c)), old(nextEntry), jobId, priority)
      ensures forall d :: d != c ==> Client(d) == old(Client(d))
    {
      assert Sane(c);
      D.ApplyKeepsInv(Client(c), D.Enqueue(nextEntry, jobId, priority));
      ok := AcceptIfRoom(c, jobId, priority);
      StaysValid(c);
    }

    // After a reported result: a pause if more is waiting.
    method Pause(c: string)
      requires Filed() && c in workers
      modifies this`workers, QueuesOf(c)
      ensures Filed() && OnlyConcerns(c)
      ensures Client(c) == D.Pause(old(Client(c)), old(workers[c].queue.View()))
      ensures forall d :: d != c ==> Client(d) == old(Client(d))
    {
      var queue := workers[c].queue;
      if queue.pendingJobs != [] {
        workers := workers[c := Coroutine(queue, D.Delaying)];
      } else {
        Loop(c);
      }
      OthersSeeNothing(c);
    }

    method OnUndelivered(c: string, job: D.Entry)
      requires Filed() && c in workers
      modifies this`workers, this`logs, QueuesOf(c)
      ensures Filed() && OnlyConcerns(c)
      ensures Client(c) == D.OnUndelivered(old(Client(c)), job, old(workers[c].queue.View()))
      ensures forall d :: d != c ==> Client(d) == old(Client(d))
    {
      var queue := workers[c].queue;
      ghost var log := Client(c).log;
      if job.priority > D.LAST_RETRY_PRIORITY {
        queue.pendingJobs := [job.(priority := job.priority - 1)] + queue.pendingJobs;
      } else {
        logs := logs[c := log.(dropped := log.dropped + [job])];
      }
      Pause(c);
      OthersSeeNothing(c);
    }

    method OnResult(c: string, result: D.Delivery, now: int)
      requires Filed() && c in workers
      modifies this`workers, this`logs, QueuesOf(c)
      ensures Filed() && OnlyConcerns(c)
      ensures Client(c) == D.StepDeliveryEnds(old(Client(c)), result, now)
      ensures forall d :: d != c ==> Client(d) == old(Client(d))
    {
      if !workers[c].phase.Delivering? {
        return;
      }
      var queue, job := workers[c].queue, workers[c].phase.entry;
      ghost var log := Client(c).log;
      match result {
        case Delivered =>
          logs := logs[c := log.(delivered := log.delivered + [job])];
          queue.lastProcessedAt := now;
          Pause(c);
        case Undelivered =>
          OnUndelivered(c, job);
        case Threw =>
          logs := logs[c := log.(dropped := log.dropped + [job])];
          Loop(c);
      }
      OthersSeeNothing(c);
    }

    // The delivery callback, its five-second timeout, or an exception in a listener.
    method DeliveryEnds(c: string, result: D.Delivery, now: int)
      requires Valid() && c in workers
      modifies this`workers, this`logs, QueuesOf(c)
      ensures Valid() && OnlyConcerns(c)
      ensures Client(c) == D.StepDeliveryEnds(old(Client(c)), result, now)
      ensures forall d :: d != c ==> Client(d) == old(Client(d))
    {
      assert Sane(c);
      D.ApplyKeepsInv(Client(c), D.DeliveryEnds(result, now));
      OnResult(c, result, now);
      StaysValid(c);
    }

    method DelayEnds(c: string)
      requires Valid() && c in workers
      modifies this`workers, QueuesOf(c)
      ensures Valid() && OnlyConcerns(c)
      ensures Client(c) == D.StepDelayEnds(old(Client(c)))
      ensures forall d :: d != c ==> Client(d) == old(Client(d))
    {
      assert Sane(c);
      D.ApplyKeepsInv(Client(c), D.DelayEnds);
      if workers[c].phase.Delaying? {
        Loop(c);
      }
      OthersSeeNothing(c);
      StaysValid(c);
    }

    method CleanupStaleQueues(now: int)
      requires Valid()
      modifies this`clientQueues
      ensures Valid() && Waiters() == old(Waiters())
      ensures forall c :: D.Linked(old(Client(c))) && Client(c) == D.Apply(old(Client(c)), D.CleanupStale(now))
    {
      var stale: set<string> := {};
      var todo := clientQueues.Keys;
      while todo != {}
        invariant todo <= clientQueues.Keys
        invariant forall c :: c in stale <==>
                    && c in clientQueues && c !in todo
                    && clientQueues[c].pendingJobs == [] && !clientQueues[c].isProcessing
                    && now - clientQueues[c].lastProcessedAt > D.STALE_MS
        decreases todo
      {
        var c :| c in todo;
        todo := todo - {c};
        var queue := clientQueues[c];
        if queue.pendingJobs == [] && !queue.isProcessing && now - queue.lastProcessedAt > D.STALE_MS {
          stale := stale + {c};
        }
      }
      clientQueues := clientQueues - stale;
      forall c ensures Client(c) == D.StepCleanupStale(old(Client(c)), now) && Sane(c) {
        assert old(Sane(c));
        D.ApplyKeepsInv(old(Client(c)), D.CleanupStale(now));
      }
    }

    // ------------------------------------------------------------ waiters

    method DecrementCount(client: string)
      modifies this`clientJobCounts
      ensures clientJobCounts == W.Decrement(old(clientJobCounts), client)
      ensures forall d :: Client(d) == old(Client(d))
    {
      var currentCount := if client in clientJobCounts then clientJobCounts[client] else 0;
      if currentCount > 0 {
        clientJobCounts := clientJobCounts[client := currentCount - 1];
      }
    }

    method WaitForJobCompletion(jobId: string, client: string, timeoutMs: int, now: int) returns (call: nat)
      requires Valid()
      modifies this`waitingJobs, this`clientJobCounts, this`timers, this`waitCalls, this`settled
      ensures Valid()
      ensures Waiters() == W.Apply(old(Waiters()), W.OpWait(jobId, client, timeoutMs, now))
      ensures jobId in waitingJobs
      ensures jobId in old(waitingJobs) ==> waitingJobs == old(waitingJobs) && settled == old(settled) + [W.Rejected(call)]
      ensures jobId !in old(waitingJobs) ==> waitingJobs[jobId] == W.Waiter(client, call, now, timeoutMs) && settled == old(settled)
      ensures forall d :: Client(d) == old(Client(d))
    {
      call := waitCalls;
      waitCalls := waitCalls + 1;
      if jobId in waitingJobs {
        settled := settled + [W.Rejected(call)];
        WaitersStayValid(W.OpWait(jobId, client, timeoutMs, now));
        return;
      }
      timers := timers[call := W.Timer(jobId, client)];
      var currentCount := if client in clientJobCounts then clientJobCounts[client] else 0;
      clientJobCounts := clientJobCounts[client := currentCount + 1];
      waitingJobs := waitingJobs[jobId := W.Waiter(client, call, now, timeoutMs)];
      WaitersStayValid(W.OpWait(jobId, client, timeoutMs, now));
    }

    method TimerFires(call: nat)
      requires Valid() && call in timers
      modifies this`waitingJobs, this`clientJobCounts, this`timers, this`settled
      ensures Valid()
      ensures Waiters() == W.Apply(old(Waiters()), W.OpTimer(call))
      ensures waitingJobs == old(waitingJobs) - {old(timers)[call].jobId} && settled == old(settled) + [W.Rejected(call)]
      ensures forall d :: Client(d) == old(Client(d))
    {
      var t := timers[call];
      timers := timers - {call};
      waitingJobs := waitingJobs - {t.jobId};
      DecrementCount(t.client);
      settled := settled + [W.Rejected(call)];
      WaitersStayValid(W.OpTimer(call));
    }

    method ResolveJobCompletion(jobId: string, logThrows: bool)
      requires Valid()
      modifies this`waitingJobs, this`clientJobCounts, this`timers, this`settled
      ensures Valid()
      ensures Waiters() == W.Apply(old(Waiters()), W.OpResolve(jobId, logThrows))
      ensures waitingJobs == old(waitingJobs) - {jobId}
      ensures jobId in old(waitingJobs) ==>
                var call := old(waitingJobs)[jobId].call;
                settled == old(settled) + [if logThrows then W.Rejected(call) else W.Resolved(call)]
      ensures forall d :: Client(d) == old(Client(d))
    {
      if jobId in waitingJobs {
        var w := waitingJobs[jobId];
        timers := timers - {w.call};
        waitingJobs := waitingJobs - {jobId};
        DecrementCount(w.client);
        settled := settled + [if logThrows then W.Rejected(w.call) else W.Resolved(w.call)];
      }
      WaitersStayValid(W.OpResolve(jobId, logThrows));
    }

    method RejectJobCompletion(jobId: string)
      requires Valid()
      modifies this`waitingJobs, this`clientJobCounts, this`timers, this`settled
      ensures Valid()
      ensures Waiters() == W.Apply(old(Waiters()), W.OpReject(jobId))
      ensures waitingJobs == old(waitingJobs) - {jobId}
      ensures jobId in old(waitingJobs) ==> settled == old(settled) + [W.Rejected(old(waitingJobs)[jobId].call)]
      ensures forall d :: Client(d) == old(Client(d))
    {
      if jobId in waitingJobs {
        var w := waitingJobs[jobId];
        timers := timers - {w.call};
        waitingJobs := waitingJobs - {jobId};
        DecrementCount(w.client);
        settled := settled + [W.Rejected(w.call)];
      }
      WaitersStayValid(W.OpReject(jobId));
    }

    method RejectAll(jobs: seq<string>)
      requires Valid()
      modifies this`waitingJobs, this`clientJobCounts, this`timers, this`settled
      ensures Valid()
      ensures Waiters() == W.RejectEach(old(Waiters()), jobs)
      ensures forall d :: Client(d) == old(Client(d))
    {
      var i := 0;
      assert jobs[0..] == jobs;
      while i < |jobs|
        invariant 0 <= i <= |jobs|
        invariant W.RejectEach(Waiters(), jobs[i..]) == W.RejectEach(old(Waiters()), jobs)
        invariant Valid() && waitCalls == old(waitCalls)
        invariant forall d :: Client(d) == old(Client(d))
      {
        assert jobs[i..] == [jobs[i]] + jobs[i + 1..];
        RejectJobCompletion(jobs[i]);
        i := i + 1;
      }
    }

    method CleanupOrphanedJobs(now: int) returns (ghost jobs: seq<string>)
      requires Valid()
      modifies this`waitingJobs, this`clientJobCounts, this`timers, this`settled
      ensures Valid()
      ensures W.Collected(old(Waiters()), W.OpSweep(now, jobs))
      ensures Waiters() == W.Apply(old(Waiters()), W.OpSweep(now, jobs))
      // orphaned: five minutes past its own timeout, or past the default one of five minutes
      ensures waitingJobs == map j | j in old(waitingJobs) &&
                now - old(waitingJobs)[j].startTime
                <= (if old(waitingJobs)[j].timeoutMs == 0 then 300000 else old(waitingJobs)[j].timeoutMs) + 300000
                :: old(waitingJobs)[j]
      ensures Waiters() == W.RejectEach(old(Waiters()), jobs)
      ensures forall d :: Client(d) == old(Client(d))
    {
      var orphanedJobs: seq<string> := [];
      var todo := waitingJobs.Keys;
      while todo != {}
        invariant todo <= waitingJobs.Keys
        invariant forall j :: j in orphanedJobs <==>
                    j in waitingJobs && j !in todo && W.Orphaned(waitingJobs[j], now)
        decreases todo
      {
        var j :| j in todo;
        todo := todo - {j};
        if W.Orphaned(waitingJobs[j], now) {
          orphanedJobs := orphanedJobs + [j];
        }
      }
      jobs := orphanedJobs;
      W.RejectEachLaw(Waiters(), jobs);
      RejectAll(orphanedJobs);
    }

    // ------------------------------------------------------------ disconnects

    method CollectWaiting(c: string) returns (jobs: seq<string>)
      requires Valid()
      ensures Valid()
      ensures W.Collected(Waiters(), W.OpDisconnect(c, jobs))
      ensures |jobs| == |W.JobsOf(waitingJobs, c)|
    {
      jobs := [];
      ghost var mine: set<string> := {};
      var todo := waitingJobs.Keys;
      while todo != {}
        invariant todo <= waitingJobs.Keys
        invariant forall j :: j in mine <==> j in waitingJobs && j !in todo && waitingJobs[j].client == c
        invariant |jobs| == |mine| && forall j :: j in jobs <==> j in mine
        decreases todo
      {
        var j :| j in todo;
        todo := todo - {j};
        if waitingJobs[j].client == c {
          jobs := jobs + [j];
          mine := mine + {j};
        }
      }
      assert mine == W.JobsOf(waitingJobs, c);
    }

    method ClearWaiting(c: string, jobs: seq<string>)
      requires Valid() && W.Collected(Waiters(), W.OpDisconnect(c, jobs))
      modifies this`waitingJobs, this`clientJobCounts, this`timers, this`settled
      ensures Valid()
      ensures Waiters() == W.Apply(old(Waiters()), W.OpDisconnect(c, jobs))
      ensures W.JobsOf(waitingJobs, c) == {}
      ensures forall d :: Client(d) == old(Client(d))
    {
      W.DisconnectKeepsInv(Waiters(), c, jobs);
      RejectAll(jobs);
      clientJobCounts := clientJobCounts - {c};
      WaitersStayValid(W.OpDisconnect(c, jobs));
    }

    method RejectWaiting(c: string) returns (clearedWaiting: nat, ghost jobs: seq<string>)
      requires Valid()
      modifies this`waitingJobs, this`clientJobCounts, this`timers, this`settled
      ensures Valid()
      ensures W.Collected(old(Waiters()), W.OpDisconnect(c, jobs))
      ensures Waiters() == W.Apply(old(Waiters()), W.OpDisconnect(c, jobs))
      ensures clearedWaiting == |W.JobsOf(old(waitingJobs), c)| && W.JobsOf(waitingJobs, c) == {}
      ensures forall d :: Client(d) == old(Client(d))
    {
      var rejected := CollectWaiting(c);
      jobs := rejected;
      clearedWaiting := |rejected|;
      ClearWaiting(c, rejected);
    }

    method ClearClientQueue(c: string) returns (clearedPending: nat, clearedWaiting: nat, ghost jobs: seq<string>)
      requires Valid()
      modifies this`clientQueues, this`logs, QueuesOf(c)
      modifies this`waitingJobs, this`clientJobCounts, this`timers, this`settled
      ensures Valid()
      ensures Client(c) == D.StepClear(old(Client(c)))
      ensures clientQueues - {c} == old(clientQueues) - {c} && logs - {c} == old(logs) - {c}
      ensures W.Collected(old(Waiters()), W.OpDisconnect(c, jobs))
      ensures Waiters() == W.Apply(old(Waiters()), W.OpDisconnect(c, jobs))
      ensures clearedPending == if old(Client(c)).queue == None then 0 else |old(Client(c)).queue.value.pending|
      ensures clearedWaiting == |W.JobsOf(old(Waiters()).waiting, c)| && W.JobsOf(waitingJobs, c) == {}
      ensures forall d :: d != c ==> Client(d) == old(Client(d))
    {
      clearedPending := ClearPending(c);
      clearedWaiting, jobs := RejectWaiting(c);
    }

    // The queue object is emptied and taken out of the map; a coroutine may still hold it.
    method DetachQueue(c: string) returns (clearedPending: nat)
      requires Filed()
      modifies this`clientQueues, this`logs, QueuesOf(c)
      ensures Filed() && OnlyConcerns(c)
      ensures Client(c) == D.StepClear(old(Client(c)))
      ensures clearedPending == if old(Client(c)).queue == None then 0 else |old(Client(c)).queue.value.pending|
      ensures forall d :: d != c ==> Client(d) == old(Client(d))
    {
      clearedPending := 0;
      if c in clientQueues {
        var queue := clientQueues[c];
        ghost var log := Client(c).log;
        logs := logs[c := log.(cleared := log.cleared + queue.pendingJobs)];
        clearedPending := |queue.pendingJobs|;
        queue.pendingJobs := [];
        queue.isProcessing := false;
        clientQueues := clientQueues - {c};
      }
      OthersSeeNothing(c);
    }

    method ClearPending(c: string) returns (clearedPending: nat)
      requires Valid()
      modifies this`clientQueues, this`logs, QueuesOf(c)
      ensures Valid() && OnlyConcerns(c)
      ensures Client(c) == D.StepClear(old(Client(c)))
      ensures clearedPending == if old(Client(c)).queue == None then 0 else |old(Client(c)).queue.value.pending|
      ensures forall d :: d != c ==> Client(d) == old(Client(d))
    {
      assert Sane(c);
      D.ApplyKeepsInv(Client(c), D.Clear);
      clearedPending := DetachQueue(c);
      StaysValid(c);
    }
  }

  lemma {:induction false} InsertAt(pending: seq<D.Entry>, e: D.Entry, k: nat)
    requires k <= |pending| && (forall i :: 0 <= i < k ==> pending[i].priority >= e.priority)
    requires k < |pending| ==> pending[k].priority < e.priority
    ensures D.Insert(pending, e) == pending[..k] + [e] + pending[k..]
  {
    if 0 < k {
      InsertAt(pending[1..], e, k - 1);
      assert pending[..k] == [pending[0]] + pending[1..][..k - 1];
    }
  }
}
