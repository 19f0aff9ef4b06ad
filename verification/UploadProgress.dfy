/** The uploader does not deadlock, and no call runs for ever. */
module UploadProgress {
  import opened BucketStore
  import opened Upload

  // ---------------------------------------------------------------- a bound on what is left to do

  function TaskWeight(t: Task): nat {
    match t
    case Calling => 5
    case Stored => 4
    case Counted => 2
    case Failed => 2
  }

  ghost function TaskWork(tasks: map<nat, Task>, n: nat): nat {
    if n == 0 then 0 else TaskWork(tasks, n - 1) + (if n - 1 in tasks then TaskWeight(tasks[n - 1]) else 0)
  }

  function LoopWork(c: Call, frames: nat): nat {
    (if c.index <= frames then 7 * (frames - c.index) else 0)
    + (match c.loop case NeedPermit => 2 case HavePermit => 1 case Finished => 0 case Broken => 0)
  }

  ghost function Rank(plan: Plan, s: System): nat
    requires plan.Valid()
  {
    var c := s.call;
    LoopWork(c, |plan.Parts()|) + TaskWork(c.tasks, |plan.Parts()|) + |c.channel|
    + (if c.receiver == Listening then 1 else 0) + (if c.outcome.Running? then 1 else 0) + |s.strays|
  }

  lemma {:induction false} TaskWorkSet(tasks: map<nat, Task>, i: nat, t: Task, n: nat)
    ensures TaskWork(tasks[i := t], n) ==
            TaskWork(tasks, n)
            + (if i < n then TaskWeight(t) - (if i in tasks then TaskWeight(tasks[i]) else 0) else 0)
  {
    if n > 0 {
      TaskWorkSet(tasks, i, t, n - 1);
    }
  }

  lemma {:induction false} TaskWorkRemove(tasks: map<nat, Task>, i: nat, n: nat)
    ensures TaskWork(tasks - {i}, n) ==
            TaskWork(tasks, n) - (if i < n && i in tasks then TaskWeight(tasks[i]) else 0)
  {
    if n > 0 {
      TaskWorkRemove(tasks, i, n - 1);
    }
  }

  lemma TaskStepTakesRank(plan: Plan, s: System, step: Step, i: nat, unsure: set<nat>)
    requires plan.Valid() && Inv(plan, s, unsure)
    requires step == CanisterStores(i) || step == Send(i) || step == Reply(i, true) || step == Reply(i, false)
    ensures Apply(plan, s, step) == s || Rank(plan, Apply(plan, s, step)) < Rank(plan, s)
  {
    var c, n := s.call, |plan.Parts()|;
    match step
    case CanisterStores(_) => TaskWorkSet(c.tasks, i, Stored, n);
    case Reply(_, ok) => TaskWorkSet(c.tasks, i, if ok then Counted else Failed, n);
    case Send(_) => TaskWorkRemove(c.tasks, i, n);
    case _ =>
  }

  // Every step but a retry either does nothing or brings the end closer.
  lemma StepTakesRank(plan: Plan, s: System, step: Step, unsure: set<nat>)
    requires plan.Valid() && Inv(plan, s, unsure) && step != Retry
    ensures Apply(plan, s, step) == s || Rank(plan, Apply(plan, s, step)) < Rank(plan, s)
  {
    match step
    case NextFrame => TaskWorkSet(s.call.tasks, s.call.index, Calling, |plan.Parts()|);
    case CanisterStores(i) => TaskStepTakesRank(plan, s, step, i, unsure);
    case Reply(i, _) => TaskStepTakesRank(plan, s, step, i, unsure);
    case Send(i) => TaskStepTakesRank(plan, s, step, i, unsure);
    case _ =>
  }

  ghost predicate Effective(plan: Plan, s: System, schedule: seq<Step>)
    requires plan.Valid()
    decreases |schedule|
  {
    schedule != [] ==>
      && schedule[0] != Retry && Apply(plan, s, schedule[0]) != s
      && Effective(plan, Apply(plan, s, schedule[0]), schedule[1..])
  }

  // No run of one upload_chunks call has more than Rank(s) steps.
  lemma {:induction false} EveryCallEnds(plan: Plan, s: System, schedule: seq<Step>, unsure: set<nat>)
    requires plan.Valid() && Inv(plan, s, unsure) && Effective(plan, s, schedule)
    ensures |schedule| <= Rank(plan, s)
    decreases |schedule|
  {
    if schedule != [] {
      StepTakesRank(plan, s, schedule[0], unsure);
      ApplyKeepsInv(plan, s, schedule[0], unsure);
      EveryCallEnds(plan, Apply(plan, s, schedule[0]), schedule[1..], unsure);
    }
  }

  // ---------------------------------------------------------------- something can always happen

  ghost function TaskStep(plan: Plan, s: System, i: nat): Step
    requires plan.Valid() && i in s.call.tasks && i < |plan.Parts()|
  {
    match s.call.tasks[i]
    case Calling =>
      if PutChunk(s.file, i, plan.Parts()[i], plan.lim).Some? then CanisterStores(i) else Reply(i, false)
    case Stored => Reply(i, true)
    case Counted => Send(i)
    case Failed => Send(i)
  }

  ghost function GoodStep(plan: Plan, s: System, unsure: set<nat>): Step
    requires plan.Valid() && Inv(plan, s, unsure)
  {
    var c := s.call;
    if c.loop == Broken || c.receiver == GotError then Abort
    else if c.receiver == Drained then Commit(true, true, false)
    else if c.channel != [] then Receive
    else if c.tasks != map[] then
      var i :| i in c.tasks;
      TaskStep(plan, s, i)
    else match c.loop
      case NeedPermit => Acquire
      case HavePermit => NextFrame
      case _ => ChannelCloses
  }

  lemma TaskStepMoves(plan: Plan, s: System, i: nat, unsure: set<nat>)
    requires plan.Valid() && Inv(plan, s, unsure) && i in s.call.tasks && i < |plan.Parts()|
    requires s.call.channel == []
    ensures TaskStep(plan, s, i) != Retry && Apply(plan, s, TaskStep(plan, s, i)) != s
  {
  }

  // However the permits and the bounded channel are held, a running call is never stuck.
  lemma NeverStuck(plan: Plan, s: System, unsure: set<nat>)
    requires plan.Valid() && Inv(plan, s, unsure) && s.call.outcome.Running?
    ensures GoodStep(plan, s, unsure) != Retry && Apply(plan, s, GoodStep(plan, s, unsure)) != s
  {
    var c := s.call;
    if c.loop != Broken && c.receiver == Listening && c.channel == [] {
      if c.tasks != map[] {
        var i :| i in c.tasks && GoodStep(plan, s, unsure) == TaskStep(plan, s, i);
        TaskStepMoves(plan, s, i, unsure);
      } else {
        assert Holders(c.tasks) == {};
      }
    }
  }
}
