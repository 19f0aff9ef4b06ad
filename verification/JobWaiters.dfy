/** The waiter half of the job queue manager: promises, their timers and the per-client
  counters. */
module JobWaiters {
  const DEFAULT_TIMEOUT_MS: int := 300000
  const GRACE_MS: int := 300000

  // One call of waitForJobCompletion makes one promise and one timer; both carry the
  // number of the call.
  datatype Waiter = Waiter(client: string, call: nat, startTime: int, timeoutMs: int)

  datatype Timer = Timer(jobId: string, client: string)

  datatype Settlement = Resolved(call: nat) | Rejected(call: nat)

  datatype State = State(
    waiting: map<string, Waiter>, counts: map<string, int>, timers: map<nat, Timer>,
    calls: nat, settled: seq<Settlement>)

  const IDLE := State(map[], map[], map[], 0, [])

  function CountOf(counts: map<string, int>, client: string): int {
    if client in counts then counts[client] else 0
  }

  function Decrement(counts: map<string, int>, client: string): map<string, int> {
    if CountOf(counts, client) > 0 then counts[client := CountOf(counts, client) - 1] else counts
  }

  // ---------------------------------------------------------------- steps

  // A second wait for the same job is rejected on the spot and leaves no trace.
  function Wait(s: State, jobId: string, client: string, timeoutMs: int, now: int): State {
    if jobId in s.waiting then
      s.(calls := s.calls + 1, settled := s.settled + [Rejected(s.calls)])
    else
      s.(waiting := s.waiting[jobId := Waiter(client, s.calls, now, timeoutMs)],
         counts := s.counts[client := CountOf(s.counts, client) + 1],
         timers := s.timers[s.calls := Timer(jobId, client)],
         calls := s.calls + 1)
  }

  function TimerFires(s: State, call: nat): State {
    if call !in s.timers then s
    else
      var t := s.timers[call];
      s.(waiting := s.waiting - {t.jobId},
         counts := Decrement(s.counts, t.client),
         timers := s.timers - {call},
         settled := s.settled + [Rejected(call)])
  }

  // resolveJobCompletion and rejectJobCompletion; resolving turns into rejecting when the
  // log call before it throws.
  function Leave(s: State, jobId: string, resolve: bool): State {
    if jobId !in s.waiting then s
    else
      var w := s.waiting[jobId];
      s.(waiting := s.waiting - {jobId},
         counts := Decrement(s.counts, w.client),
         timers := s.timers - {w.call},
         settled := s.settled + [if resolve then Resolved(w.call) else Rejected(w.call)])
  }

  function RejectEach(s: State, jobs: seq<string>): State
    decreases |jobs|
  {
    if jobs == [] then s else RejectEach(Leave(s, jobs[0], false), jobs[1..])
  }

  predicate Orphaned(w: Waiter, now: int) {
    now - w.startTime > (if w.timeoutMs == 0 then DEFAULT_TIMEOUT_MS else w.timeoutMs) + GRACE_MS
  }

  // The waiting part of clearClientQueue.
  function Disconnect(s: State, client: string, jobs: seq<string>): State {
    var s' := RejectEach(s, jobs);
    s'.(counts := s'.counts - {client})
  }

  datatype Op =
    | OpWait(jobId: string, client: string, timeoutMs: int, now: int)
    | OpTimer(call: nat)
    | OpResolve(jobId: string, logThrows: bool)
    | OpReject(jobId: string)
    | OpSweep(now: int, jobs: seq<string>)
    | OpDisconnect(client: string, jobs: seq<string>)

  // The list a sweep or a disconnect has collected, in whatever order.
  ghost predicate Collected(s: State, op: Op) {
    match op
    case OpSweep(now, jobs) =>
      forall j :: j in jobs <==> j in s.waiting && Orphaned(s.waiting[j], now)
    case OpDisconnect(client, jobs) =>
      forall j :: j in jobs <==> j in s.waiting && s.waiting[j].client == client
    case _ => true
  }

  function Apply(s: State, op: Op): State {
    match op
    case OpWait(jobId, client, timeoutMs, now) => Wait(s, jobId, client, timeoutMs, now)
    case OpTimer(call) => TimerFires(s, call)
    case OpResolve(jobId, logThrows) => Leave(s, jobId, !logThrows)
    case OpReject(jobId) => Leave(s, jobId, false)
    case OpSweep(now, jobs) => RejectEach(s, jobs)
    case OpDisconnect(client, jobs) => Disconnect(s, client, jobs)
  }

  // ---------------------------------------------------------------- what every run keeps

  ghost function JobsOf(waiting: map<string, Waiter>, client: string): set<string> {
    set j | j in waiting && waiting[j].client == client
  }

  ghost function Times(settled: seq<Settlement>, call: nat): nat {
    if settled == [] then 0 else (if settled[0].call == call then 1 else 0) + Times(settled[1..], call)
  }

  // The counter is the number of waiting jobs.
  ghost predicate CountsOk(s: State) {
    forall c :: CountOf(s.counts, c) == |JobsOf(s.waiting, c)|
  }

  // Armed timers and waiting entries correspond one to one.
  ghost predicate TimersOk(s: State) {
    && (forall j :: j in s.waiting ==>
          s.waiting[j].call in s.timers && s.timers[s.waiting[j].call] == Timer(j, s.waiting[j].client))
    && (forall t: nat :: t in s.timers ==>
          t < s.calls && s.timers[t].jobId in s.waiting && s.waiting[s.timers[t].jobId].call == t)
  }

  // A promise is unsettled while its entry waits, and settled exactly once afterwards.
  ghost predicate PromisesOk(s: State) {
    forall p: nat :: Times(s.settled, p) == if p < s.calls && p !in s.timers then 1 else 0
  }

  ghost predicate Inv(s: State) { CountsOk(s) && TimersOk(s) && PromisesOk(s) }

  lemma {:induction false} TimesSnoc(settled: seq<Settlement>, last: Settlement, p: nat)
    ensures Times(settled + [last], p) == Times(settled, p) + (if last.call == p then 1 else 0)
  {
    if settled == [] {
      assert settled + [last] == [last];
    } else {
      assert (settled + [last])[1..] == settled[1..] + [last];
      TimesSnoc(settled[1..], last, p);
    }
  }

  lemma SettleOnce(s: State, last: Settlement)
    ensures forall p: nat ::
              Times(s.settled + [last], p) == Times(s.settled, p) + (if last.call == p then 1 else 0)
  {
    forall p: nat
      ensures Times(s.settled + [last], p) == Times(s.settled, p) + (if last.call == p then 1 else 0)
    {
      TimesSnoc(s.settled, last, p);
    }
  }

  lemma JobsOfAdd(waiting: map<string, Waiter>, jobId: string, w: Waiter, c: string)
    requires jobId !in waiting
    ensures |JobsOf(waiting[jobId := w], c)| == |JobsOf(waiting, c)| + (if w.client == c then 1 else 0)
  {
    var after := JobsOf(waiting[jobId := w], c);
    if w.client == c {
      assert after == JobsOf(waiting, c) + {jobId};
    } else {
      assert after == JobsOf(waiting, c);
    }
  }

  lemma JobsOfRemove(waiting: map<string, Waiter>, jobId: string, c: string)
    requires jobId in waiting
    ensures |JobsOf(waiting - {jobId}, c)| == |JobsOf(waiting, c)| - (if waiting[jobId].client == c then 1 else 0)
  {
    assert JobsOf(waiting - {jobId}, c) == JobsOf(waiting, c) - {jobId};
  }

  lemma WaitKeepsInv(s: State, jobId: string, client: string, timeoutMs: int, now: int)
    requires Inv(s)
    ensures Inv(Wait(s, jobId, client, timeoutMs, now))
  {
    if jobId in s.waiting {
      SettleOnce(s, Rejected(s.calls));
    } else {
      forall c ensures CountOf(Wait(s, jobId, client, timeoutMs, now).counts, c)
                       == |JobsOf(Wait(s, jobId, client, timeoutMs, now).waiting, c)| {
        JobsOfAdd(s.waiting, jobId, Waiter(client, s.calls, now, timeoutMs), c);
      }
    }
  }

  // The guard on the counter is always true when an entry leaves: it hides nothing.
  lemma GuardNeverBites(s: State, jobId: string)
    requires Inv(s) && jobId in s.waiting
    ensures CountOf(s.counts, s.waiting[jobId].client) > 0
  {
    assert jobId in JobsOf(s.waiting, s.waiting[jobId].client);
  }

  lemma LeaveKeepsInv(s: State, jobId: string, resolve: bool)
    requires Inv(s)
    ensures Inv(Leave(s, jobId, resolve))
  {
    if jobId in s.waiting {
      var w := s.waiting[jobId];
      SettleOnce(s, if resolve then Resolved(w.call) else Rejected(w.call));
      GuardNeverBites(s, jobId);
      forall c ensures CountOf(Leave(s, jobId, resolve).counts, c)
                       == |JobsOf(Leave(s, jobId, resolve).waiting, c)| {
        JobsOfRemove(s.waiting, jobId, c);
      }
    }
  }

  // A timer that fires is the rejection of the entry it was armed for.
  lemma TimerIsRejection(s: State, call: nat)
    requires Inv(s) && call in s.timers
    ensures TimerFires(s, call) == Leave(s, s.timers[call].jobId, false)
  {
  }

  // How a waiter's promise is settled: resolved only by a completion, and rejected when that
  // fails or the job is rejected; either way the entry and its timer are gone.
  lemma LeaveSettles(s: State, jobId: string, resolve: bool)
    ensures var s' := Leave(s, jobId, resolve);
            if jobId in s.waiting then
              var w := s.waiting[jobId];
              && s'.settled == s.settled + [if resolve then Resolved(w.call) else Rejected(w.call)]
              && s'.waiting == s.waiting - {jobId} && s'.timers == s.timers - {w.call} && s'.calls == s.calls
              && CountOf(s'.counts, w.client) ==
                 (if CountOf(s.counts, w.client) > 0 then CountOf(s.counts, w.client) - 1 else CountOf(s.counts, w.client))
            else s' == s
  {
  }

  // A new wait is registered under the next call with its timer and counted; a second one
  // for the same job is rejected at once.
  lemma WaitRegisters(s: State, jobId: string, client: string, timeoutMs: int, now: int)
    ensures var s' := Wait(s, jobId, client, timeoutMs, now);
            && s'.calls == s.calls + 1
            && if jobId in s.waiting then s' == s.(calls := s'.calls, settled := s.settled + [Rejected(s.calls)])
               else
                 && s'.waiting == s.waiting[jobId := Waiter(client, s.calls, now, timeoutMs)]
                 && s'.timers == s.timers[s.calls := Timer(jobId, client)]
                 && CountOf(s'.counts, client) == CountOf(s.counts, client) + 1
                 && s'.settled == s.settled
  {
  }

  lemma {:induction false} RejectEachLaw(s: State, jobs: seq<string>)
    requires Inv(s)
    ensures Inv(RejectEach(s, jobs))
    ensures RejectEach(s, jobs).waiting == s.waiting - (set j | j in jobs)
    decreases |jobs|
  {
    if jobs != [] {
      LeaveKeepsInv(s, jobs[0], false);
      RejectEachLaw(Leave(s, jobs[0], false), jobs[1..]);
      assert (set j | j in jobs) == {jobs[0]} + (set j | j in jobs[1..]);
    }
  }

  lemma DisconnectKeepsInv(s: State, client: string, jobs: seq<string>)
    requires Inv(s) && Collected(s, OpDisconnect(client, jobs))
    ensures Inv(Disconnect(s, client, jobs))
    ensures JobsOf(Disconnect(s, client, jobs).waiting, client) == {} && client !in Disconnect(s, client, jobs).counts
  {
    RejectEachLaw(s, jobs);
    var s' := RejectEach(s, jobs);
    assert JobsOf(s'.waiting, client) == {};
    forall c ensures CountOf(s'.counts - {client}, c) == |JobsOf(s'.waiting, c)| {
    }
  }

  lemma ApplyKeepsInv(s: State, op: Op)
    requires Inv(s) && Collected(s, op)
    ensures Inv(Apply(s, op))
  {
    match op {
      case OpWait(jobId, client, timeoutMs, now) => WaitKeepsInv(s, jobId, client, timeoutMs, now);
      case OpTimer(call) =>
        if call in s.timers {
          TimerIsRejection(s, call);
          LeaveKeepsInv(s, s.timers[call].jobId, false);
        }
      case OpResolve(jobId, logThrows) => LeaveKeepsInv(s, jobId, !logThrows);
      case OpReject(jobId) => LeaveKeepsInv(s, jobId, false);
      case OpSweep(now, jobs) => RejectEachLaw(s, jobs);
      case OpDisconnect(client, jobs) => DisconnectKeepsInv(s, client, jobs);
    }
  }

  ghost predicate AllCollected(s: State, ops: seq<Op>)
    decreases |ops|
  {
    ops != [] ==> Collected(s, ops[0]) && AllCollected(Apply(s, ops[0]), ops[1..])
  }

  function Run(s: State, ops: seq<Op>): State
    decreases |ops|
  {
    if ops == [] then s else Run(Apply(s, ops[0]), ops[1..])
  }

  // A run is its operations one after the other.
  lemma {:induction false} RunSnoc(s: State, ops: seq<Op>, op: Op)
    ensures Run(s, []) == s
    ensures Run(s, ops + [op]) == Apply(Run(s, ops), op)
    decreases |ops|
  {
    if ops == [] {
      assert [op][1..] == [];
    } else {
      assert (ops + [op])[0] == ops[0] && (ops + [op])[1..] == ops[1..] + [op];
      RunSnoc(Apply(s, ops[0]), ops[1..], op);
    }
  }

  lemma {:induction false} RunKeepsInv(s: State, ops: seq<Op>)
    requires Inv(s) && AllCollected(s, ops)
    ensures Inv(Run(s, ops))
    decreases |ops|
  {
    if ops != [] {
      ApplyKeepsInv(s, ops[0]);
      RunKeepsInv(Apply(s, ops[0]), ops[1..]);
    }
  }

  lemma IdleInv()
    ensures Inv(IDLE)
  {
    assert forall c :: JobsOf(IDLE.waiting, c) == {};
  }

  // Waiter bookkeeping over all runs.
  lemma EveryRun(ops: seq<Op>)
    requires AllCollected(IDLE, ops)
    ensures var s := Run(IDLE, ops);
            && (forall c :: CountOf(s.counts, c) == |JobsOf(s.waiting, c)|)
            && (forall j :: j in s.waiting ==>
                  s.waiting[j].call in s.timers && s.timers[s.waiting[j].call] == Timer(j, s.waiting[j].client))
            && (forall t: nat :: t in s.timers ==>
                  s.timers[t].jobId in s.waiting && s.waiting[s.timers[t].jobId].call == t)
            && (forall p: nat :: p < s.calls ==> Times(s.settled, p) == if p in s.timers then 0 else 1)
  {
    IdleInv();
    RunKeepsInv(IDLE, ops);
  }
}
