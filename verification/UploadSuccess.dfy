/** Exactly when an upload can still succeed.

  The canister adds a chunk's length to `filled` and compares with its limit before it
  takes off the length of the chunk that was stored there before. A chunk that was stored
  but whose reply was lost therefore needs room for a second copy of itself.
 */
module UploadSuccess {
  import opened Wrappers
  import opened Chunking
  import opened BucketStore
  import opened Download
  import opened Upload
  import opened UploadProgress

  // A chunk that need not be sent any more: it is excluded, counted, or stored with its
  // reply on the way; after the call has returned, one that it returned with.
  predicate Kept(s: System, i: nat) {
    var c := s.call;
    if c.outcome.Running? then i in c.uploaded || (i in c.tasks && c.tasks[i] == Stored)
    else i in c.outcome.uploaded
  }

  // A stored chunk that will be sent again.
  predicate Resent(s: System, i: nat) { i in s.file.data && !Kept(s, i) }

  predicate IsSuccess(s: System) { s.call.outcome.Returned? && !s.call.outcome.error }

  // Nothing has failed in this call so far.
  ghost predicate Unharmed(c: Call) {
    && c.outcome.Running? && c.loop != Broken && c.receiver != GotError && false !in c.channel
    && forall i: nat :: i in c.tasks ==> c.tasks[i] != Failed
  }

  // ---------------------------------------------------------------- a chunk that can never be sent again

  // No room for a second copy.
  ghost predicate Blocked(plan: Plan, s: System, i: nat)
    requires plan.Valid()
  {
    i < |plan.Parts()| && Resent(s, i) && s.file.filled + |plan.Parts()[i]| > plan.lim.maxFileSize
  }

  // What storing a chunk of the content does to the byte count.
  lemma StoringCounts(plan: Plan, f: FileState, j: nat)
    requires plan.Valid() && FileInv(plan, f) && j < |plan.Parts()|
    ensures var put := PutChunk(f, j, plan.Parts()[j], plan.lim);
            put.Some? ==>
              && put.value.data == f.data[j := plan.Parts()[j]]
              && put.value.filled == f.filled + (if j in f.data then 0 else |plan.Parts()[j]|)
              && (j in f.data ==> put.value == f)
  {
    if j in f.data {
      StoredLengthCovers(f.data, j, f.chunks);
      assert f.data[j := plan.Parts()[j]] == f.data;
    }
  }

  lemma NoCommitBefore(plan: Plan, s: System, i: nat, unsure: set<nat>)
    requires plan.Valid() && Inv(plan, s, unsure) && i < |plan.Parts()| && i !in s.call.uploaded
    requires s.call.outcome.Running? && s.call.loop == Finished
    ensures s.call.receiver != Drained
  {
  }

  lemma BlockedStays(plan: Plan, s: System, i: nat, step: Step, unsure: set<nat>)
    requires plan.Valid() && Inv(plan, s, unsure) && Blocked(plan, s, i) && !IsSuccess(s)
    ensures var s' := Apply(plan, s, step); Blocked(plan, s', i) && !IsSuccess(s')
  {
    match step
    case CanisterStores(j) => if j < |plan.Parts()| { StoringCounts(plan, s.file, j); }
    case StrayStores(j) => if j < |plan.Parts()| { StoringCounts(plan, s.file, j); }
    case Commit(reached, answered, conflict) =>
      if s.call.outcome.Running? && s.call.loop == Finished {
        NoCommitBefore(plan, s, i, unsure);
      }
    case _ =>
  }

  // A stored chunk without room for a second copy that the call would send again blocks
  // every schedule, retries included: `filled` never falls.
  lemma {:induction false} BlockedForEver(plan: Plan, s: System, i: nat, schedule: seq<Step>, unsure: set<nat>)
    requires plan.Valid() && Inv(plan, s, unsure) && Blocked(plan, s, i) && !IsSuccess(s)
    ensures !IsSuccess(Exec(plan, s, schedule))
    decreases |schedule|
  {
    if schedule != [] {
      BlockedStays(plan, s, i, schedule[0], unsure);
      ApplyKeepsInv(plan, s, schedule[0], unsure);
      BlockedForEver(plan, Apply(plan, s, schedule[0]), i, schedule[1..], unsure);
    }
  }

  // ---------------------------------------------------------------- how full the file is when a chunk comes up

  // Missing chunks below i.
  function Missing(data: map<nat, Bytes>, i: nat): nat {
    if i == 0 then 0 else Missing(data, i - 1) + (if i - 1 in data then 0 else 1)
  }

  // How many of k earlier chunks must be stored before a chunk can be sent: all but those
  // that can be under way beside it.
  function Before(k: nat, concurrency: nat): nat {
    if k < concurrency then 0 else k - concurrency + 1
  }

  // Room for chunk i when it is sent again as early as can be. All chunks before it are full.
  ghost predicate Fits(plan: Plan, f: FileState, i: nat)
    requires plan.Valid() && i < |plan.Parts()|
  {
    f.filled + Offset(Before(Missing(f.data, i), plan.concurrency), plan.lim.chunkSize) + |plan.Parts()[i]|
    <= plan.lim.maxFileSize
  }

  ghost predicate Room(plan: Plan, s: System)
    requires plan.Valid()
  {
    forall i: nat :: i < |plan.Parts()| && Resent(s, i) ==> Fits(plan, s.file, i)
  }

  lemma {:induction false} MissingAdd(data: map<nat, Bytes>, j: nat, chunk: Bytes, i: nat)
    ensures Missing(data[j := chunk], i) == Missing(data, i) - (if j < i && j !in data then 1 else 0)
  {
    if i > 0 {
      MissingAdd(data, j, chunk, i - 1);
    }
  }

  lemma {:induction false} MissingIsCount(data: map<nat, Bytes>, i: nat)
    ensures Missing(data, i) == |set m: nat | m < i && m !in data|
  {
    if i == 0 {
      assert (set m: nat | m < 0 && m !in data) == {};
    } else {
      MissingIsCount(data, i - 1);
      var below := set m: nat | m < i - 1 && m !in data;
      assert (set m: nat | m < i && m !in data) == below + (if i - 1 in data then {} else {i - 1});
    }
  }

  lemma FullBefore(plan: Plan, j: nat, i: nat)
    requires plan.Valid() && j < i < |plan.Parts()|
    ensures |plan.Parts()[j]| == plan.lim.chunkSize
  {
    ChunksRoundTrip(plan.content, plan.lim.chunkSize);
  }

  lemma OneLess(k: nat, concurrency: nat, size: nat)
    requires 0 < k && 0 < concurrency
    ensures Offset(Before(k, concurrency), size) ==
            Offset(Before(k - 1, concurrency), size) + (if concurrency <= k then size else 0)
  {
  }

  // Storing chunks never makes room for one that does not fit.
  lemma TightStays(plan: Plan, f: FileState, i: nat, j: nat)
    requires plan.Valid() && FileInv(plan, f) && i < |plan.Parts()| && j < |plan.Parts()|
    requires !Fits(plan, f, i) && PutChunk(f, j, plan.Parts()[j], plan.lim).Some?
    ensures !Fits(plan, PutChunk(f, j, plan.Parts()[j], plan.lim).value, i)
  {
    StoringCounts(plan, f, j);
    MissingAdd(f.data, j, plan.Parts()[j], i);
    if j < i && j !in f.data {
      FullBefore(plan, j, i);
      OneLess(Missing(f.data, i), plan.concurrency, plan.lim.chunkSize);
    }
  }

  // ---------------------------------------------------------------- without room there is no success

  // A failure that the call will report.
  ghost predicate Doomed(c: Call) {
    if c.outcome.Running? then !Unharmed(c) else c.outcome.error
  }

  // An error that is on its way to the receiver arrives there.
  lemma FailedStaysDoomed(plan: Plan, s: System, k: nat, step: Step, unsure: set<nat>)
    requires plan.Valid() && Inv(plan, s, unsure) && s.call.outcome.Running? && step != Retry
    requires k in s.call.tasks && s.call.tasks[k] == Failed
    ensures Doomed(Apply(plan, s, step).call)
  {
    var c, c' := s.call, Apply(plan, s, step).call;
    if step == Send(k) && c.receiver == Listening && |c.channel| < plan.concurrency {
      assert c'.channel[|c.channel|] == false;
    } else if c'.outcome.Running? && c.receiver == Listening {
      assert k in c'.tasks && c'.tasks[k] == Failed;
    }
  }

  lemma SentStaysDoomed(plan: Plan, s: System, step: Step, unsure: set<nat>)
    requires plan.Valid() && Inv(plan, s, unsure) && s.call.outcome.Running? && step != Retry
    requires s.call.loop == Broken || s.call.receiver == GotError || false in s.call.channel
    ensures Doomed(Apply(plan, s, step).call)
  {
    var c, c' := s.call, Apply(plan, s, step).call;
    if false in c.channel {
      assert c.channel == [c.channel[0]] + c.channel[1..];
      assert step != Receive ==> false in c'.channel;
    }
  }

  lemma DoomedStays(plan: Plan, s: System, step: Step, unsure: set<nat>)
    requires plan.Valid() && Inv(plan, s, unsure) && Doomed(s.call) && step != Retry
    ensures Doomed(Apply(plan, s, step).call)
  {
    var c := s.call;
    if c.outcome.Running? {
      if c.loop == Broken || c.receiver == GotError || false in c.channel {
        SentStaysDoomed(plan, s, step, unsure);
      } else {
        var k :| k in c.tasks && c.tasks[k] == Failed;
        FailedStaysDoomed(plan, s, k, step, unsure);
      }
    }
  }

  lemma {:induction false} DoomedNeverSucceeds(plan: Plan, s: System, schedule: seq<Step>, unsure: set<nat>)
    requires plan.Valid() && Inv(plan, s, unsure) && Doomed(s.call) && Retry !in schedule
    ensures !IsSuccess(Exec(plan, s, schedule))
    decreases |schedule|
  {
    if schedule != [] {
      DoomedStays(plan, s, schedule[0], unsure);
      ApplyKeepsInv(plan, s, schedule[0], unsure);
      DoomedNeverSucceeds(plan, Apply(plan, s, schedule[0]), schedule[1..], unsure);
    }
  }

  // While chunk i is under way, the missing chunks before it are under way beside it.
  lemma MissingAreUnderWay(plan: Plan, s: System, i: nat)
    requires plan.Valid() && Inv(plan, s, {}) && Unharmed(s.call)
    requires i in s.call.tasks && s.call.tasks[i] == Calling
    ensures Missing(s.file.data, i) < plan.concurrency
  {
    var c := s.call;
    var missing := set m: nat | m < i && m !in s.file.data;
    MissingIsCount(s.file.data, i);
    forall m | m in missing ensures m in Holders(c.tasks) - {i} {
      assert m < c.index && m !in c.uploaded;
      assert m in c.tasks;
    }
    SubsetSize(missing, Holders(c.tasks) - {i});
    assert i in Holders(c.tasks);
  }

  lemma {:induction false} SubsetSize(a: set<nat>, b: set<nat>)
    requires a <= b
    ensures |a| <= |b|
  {
    if a != {} {
      var x :| x in a;
      SubsetSize(a - {x}, b - {x});
    }
  }

  ghost predicate Tight(plan: Plan, s: System, i: nat)
    requires plan.Valid()
  {
    i < |plan.Parts()| && Resent(s, i) && !Fits(plan, s.file, i)
  }

  lemma StoringLeavesTight(plan: Plan, s: System, i: nat, step: Step, j: nat)
    requires plan.Valid() && Inv(plan, s, {}) && Unharmed(s.call) && Tight(plan, s, i)
    requires step == CanisterStores(j) || step == StrayStores(j)
    ensures var s' := Apply(plan, s, step); Unharmed(s'.call) && Tight(plan, s', i)
  {
    var c := s.call;
    if j < |plan.Parts()| && PutChunk(s.file, j, plan.Parts()[j], plan.lim).Some? {
      if step.CanisterStores? && j == i && j in c.tasks && c.tasks[j] == Calling {
        MissingAreUnderWay(plan, s, i);
      }
      StoringCounts(plan, s.file, j);
      TightStays(plan, s.file, i, j);
    }
  }

  lemma TightOrDoomed(plan: Plan, s: System, i: nat, step: Step)
    requires plan.Valid() && Inv(plan, s, {}) && Unharmed(s.call) && Tight(plan, s, i) && step != Retry
    ensures var s' := Apply(plan, s, step); Doomed(s'.call) || (Unharmed(s'.call) && Tight(plan, s', i))
  {
    var c := s.call;
    match step
    case CanisterStores(j) => StoringLeavesTight(plan, s, i, step, j);
    case StrayStores(j) => StoringLeavesTight(plan, s, i, step, j);
    case Commit(_, _, _) =>
      if c.loop == Finished {
        NoCommitBefore(plan, s, i, {});
      }
    case Receive =>
      if c.channel != [] {
        assert c.channel == [c.channel[0]] + c.channel[1..];
      }
    case _ =>
  }

  lemma {:induction false} TightNeverSucceeds(plan: Plan, s: System, i: nat, schedule: seq<Step>)
    requires plan.Valid() && Inv(plan, s, {}) && Unharmed(s.call) && Tight(plan, s, i) && Retry !in schedule
    ensures !IsSuccess(Exec(plan, s, schedule))
    decreases |schedule|
  {
    if schedule != [] {
      var s' := Apply(plan, s, schedule[0]);
      TightOrDoomed(plan, s, i, schedule[0]);
      ApplyKeepsInv(plan, s, schedule[0], {});
      if Doomed(s'.call) {
        DoomedNeverSucceeds(plan, s', schedule[1..], {});
      } else {
        TightNeverSucceeds(plan, s', i, schedule[1..]);
      }
    }
  }

  // ---------------------------------------------------------------- with room there is success

  // The file is writable and its content within the limit.
  ghost predicate Accepting(plan: Plan, f: FileState) {
    f.status == 0 && |plan.content| <= plan.lim.maxFileSize
  }

  // The canister can still say yes: the file is not readonly, and it accepts chunks or needs
  // none.
  ghost predicate Open(plan: Plan, s: System)
    requires plan.Valid()
  {
    && s.file.status <= 0
    && (Accepting(plan, s.file) || forall i: nat :: i < |plan.Parts()| ==> Kept(s, i))
  }

  // A content beyond the limit is never stored completely by accepted uploads.
  lemma BeyondLimitLacksChunk(plan: Plan, f: FileState)
    requires plan.Valid() && FileInv(plan, f) && f.filled < |plan.content|
    ensures exists i: nat :: i < |plan.Parts()| && i !in f.data
  {
    FilledMeansComplete(f, plan.content, plan.lim.chunkSize);
    if forall i: nat :: i < |plan.Parts()| ==> i in f.data {
      assert f.chunks == |plan.Parts()| by {
        assert 0 < |plan.Parts()| ==> |plan.Parts()| - 1 in f.data;
      }
      assert Holds(f, plan.content, plan.lim.chunkSize);
    }
  }

  lemma StoringStaysClosed(plan: Plan, s: System, step: Step, j: nat)
    requires plan.Valid() && Inv(plan, s, {}) && !Open(plan, s)
    requires step == CanisterStores(j) || step == StrayStores(j)
    ensures !Open(plan, Apply(plan, s, step))
  {
    var s' := Apply(plan, s, step);
    if j < |plan.Parts()| && PutChunk(s.file, j, plan.Parts()[j], plan.lim).Some? && s' != s {
      ApplyKeepsInv(plan, s, step, {});
      BeyondLimitLacksChunk(plan, s'.file);
      var i: nat :| i < |plan.Parts()| && i !in s'.file.data;
      assert !Kept(s', i);
    } else {
      assert s'.file == s.file && s'.call == s.call;
      assert forall i: nat :: Kept(s', i) <==> Kept(s, i);
    }
  }

  lemma StaysClosed(plan: Plan, s: System, step: Step)
    requires plan.Valid() && Inv(plan, s, {}) && !Open(plan, s) && !IsSuccess(s)
    ensures var s' := Apply(plan, s, step); !Open(plan, s') && !IsSuccess(s')
  {
    match step
    case CanisterStores(j) => StoringStaysClosed(plan, s, step, j);
    case StrayStores(j) => StoringStaysClosed(plan, s, step, j);
    case Commit(reached, answered, conflict) =>
      if s.call.outcome.Running? && s.call.loop == Finished && s.file.status <= 0 {
        var i: nat :| i < |plan.Parts()| && !Kept(s, i);
        NoCommitBefore(plan, s, i, {});
      }
    case _ =>
      assert forall i: nat :: Kept(Apply(plan, s, step), i) ==> Kept(s, i);
  }

  // A file that was made readonly, or cannot take a chunk that it still needs, stays so,
  // retries included.
  lemma {:induction false} ClosedForEver(plan: Plan, s: System, schedule: seq<Step>)
    requires plan.Valid() && Inv(plan, s, {}) && !Open(plan, s) && !IsSuccess(s)
    ensures !IsSuccess(Exec(plan, s, schedule))
    decreases |schedule|
  {
    if schedule != [] {
      StaysClosed(plan, s, schedule[0]);
      ApplyKeepsInv(plan, s, schedule[0], {});
      ClosedForEver(plan, Apply(plan, s, schedule[0]), schedule[1..]);
    }
  }

  ghost predicate Ready(plan: Plan, s: System)
    requires plan.Valid()
  {
    Inv(plan, s, {}) && Unharmed(s.call) && Open(plan, s) && Room(plan, s)
  }

  ghost predicate Has(s: System, t: Task) {
    exists i: nat :: i in s.call.tasks && s.call.tasks[i] == t
  }

  ghost predicate HasAgain(s: System) {
    exists i: nat :: i in s.call.tasks && s.call.tasks[i] == Calling && i in s.file.data
  }

  // Bring home what is stored, send again what is stored already, read on, and store a
  // missing chunk only when nothing else can be done.
  ghost function BestStep(s: System): Step {
    var c := s.call;
    if c.receiver == Drained then Commit(true, true, false)
    else if c.channel != [] then Receive
    else if Has(s, Stored) then (var i: nat :| i in c.tasks && c.tasks[i] == Stored; Reply(i, true))
    else if Has(s, Counted) then (var i: nat :| i in c.tasks && c.tasks[i] == Counted; Send(i))
    else if HasAgain(s) then (var i: nat :| i in c.tasks && c.tasks[i] == Calling && i in s.file.data; CanisterStores(i))
    else if c.loop == HavePermit then NextFrame
    else if c.loop == NeedPermit && 0 < c.permits then Acquire
    else if Has(s, Calling) then (var i: nat :| i in c.tasks && c.tasks[i] == Calling; CanisterStores(i))
    else ChannelCloses
  }

  // A step that gets somewhere: to success, or on to a state that is as good.
  ghost predicate GoodNext(plan: Plan, s: System, step: Step)
    requires plan.Valid()
  {
    var s' := Apply(plan, s, step);
    step != Retry && (IsSuccess(s') || (s' != s && Ready(plan, s')))
  }

  // Nothing more has to be sent.
  ghost predicate NoMoreToSend(s: System, s': System) {
    s'.file == s.file && forall i: nat :: Kept(s, i) ==> Kept(s', i)
  }

  // A step that leaves the file alone.
  lemma QuietStep(plan: Plan, s: System, step: Step)
    requires plan.Valid() && Ready(plan, s) && step != Retry
    requires var s' := Apply(plan, s, step); s' != s && Inv(plan, s', {}) && Unharmed(s'.call) && NoMoreToSend(s, s')
    ensures GoodNext(plan, s, step)
  {
  }

  lemma ReplyStep(plan: Plan, s: System, i: nat)
    requires plan.Valid() && Ready(plan, s) && i in s.call.tasks && s.call.tasks[i] == Stored
    ensures GoodNext(plan, s, Reply(i, true))
  {
    ReplyKeepsInv(plan, s, i, true, {});
    QuietStep(plan, s, Reply(i, true));
  }

  lemma SendUnharmed(plan: Plan, s: System, i: nat)
    requires plan.Valid() && Unharmed(s.call) && i in s.call.tasks && s.call.tasks[i] == Counted
    ensures Unharmed(StepSend(plan, s, i).call)
  {
  }

  lemma SendQuiet(plan: Plan, s: System, i: nat)
    requires i in s.call.tasks && i in s.call.uploaded && s.call.tasks[i] == Counted
    requires s.call.outcome.Running? && s.call.channel == [] && 0 < plan.concurrency
    ensures NoMoreToSend(s, StepSend(plan, s, i)) && StepSend(plan, s, i).call.tasks == s.call.tasks - {i}
  {
  }

  lemma SendStep(plan: Plan, s: System, i: nat)
    requires plan.Valid() && Ready(plan, s) && s.call.channel == []
    requires i in s.call.tasks && s.call.tasks[i] == Counted
    ensures GoodNext(plan, s, Send(i))
  {
    SendKeepsInv(plan, s, i, {});
    SendUnharmed(plan, s, i);
    SendQuiet(plan, s, i);
    QuietStep(plan, s, Send(i));
  }

  lemma ReceiveStep(plan: Plan, s: System)
    requires plan.Valid() && Ready(plan, s) && s.call.channel != [] && s.call.receiver == Listening
    ensures GoodNext(plan, s, Receive)
  {
    var c := s.call;
    ReceiverKeepsInv(plan, s, {});
    assert c.channel == [c.channel[0]] + c.channel[1..];
    QuietStep(plan, s, Receive);
  }

  lemma CloseStep(plan: Plan, s: System)
    requires plan.Valid() && Ready(plan, s)
    requires s.call.channel == [] && s.call.receiver == Listening && s.call.tasks == map[] && s.call.loop == Finished
    ensures GoodNext(plan, s, ChannelCloses)
  {
    ReceiverKeepsInv(plan, s, {});
    QuietStep(plan, s, ChannelCloses);
  }

  lemma AcquireStep(plan: Plan, s: System)
    requires plan.Valid() && Ready(plan, s) && s.call.loop == NeedPermit && 0 < s.call.permits
    ensures GoodNext(plan, s, Acquire)
  {
    QuietStep(plan, s, Acquire);
  }

  lemma ReadUnharmed(plan: Plan, s: System)
    requires plan.Valid() && Unharmed(s.call)
    ensures Unharmed(StepNextFrame(plan, s).call)
  {
  }

  lemma ReadQuiet(plan: Plan, s: System)
    requires plan.Valid() && s.call.index !in s.call.tasks
    ensures NoMoreToSend(s, StepNextFrame(plan, s))
  {
  }

  lemma ReadStep(plan: Plan, s: System)
    requires plan.Valid() && Ready(plan, s) && s.call.loop == HavePermit
    ensures GoodNext(plan, s, NextFrame)
  {
    NextFrameKeepsInv(plan, s, {});
    ReadUnharmed(plan, s);
    ReadQuiet(plan, s);
    QuietStep(plan, s, NextFrame);
  }

  // Sending a stored chunk again changes nothing but that it need not be sent any more.
  lemma CopyIsAccepted(plan: Plan, f: FileState, i: nat)
    requires plan.Valid() && FileInv(plan, f) && Accepting(plan, f) && (f.size == 0 || f.size == |plan.content|)
    requires i < |plan.Parts()| && i in f.data && f.filled + |plan.Parts()[i]| <= plan.lim.maxFileSize
    ensures PutChunk(f, i, plan.Parts()[i], plan.lim) == Some(f)
  {
    ChunkIsSmall(plan.content, plan.lim.chunkSize, i);
    FilledMeansComplete(f, plan.content, plan.lim.chunkSize);
    StoredLengthCovers(f.data, i, f.chunks);
    assert f.data[i := plan.Parts()[i]] == f.data;
  }

  lemma AgainIsQuiet(plan: Plan, s: System, i: nat)
    requires plan.Valid() && i in s.call.tasks && s.call.tasks[i] == Calling && i < |plan.Parts()|
    requires PutChunk(s.file, i, plan.Parts()[i], plan.lim) == Some(s.file)
    ensures var s' := StepCanisterStores(plan, s, i);
            s' != s && NoMoreToSend(s, s') && (Unharmed(s.call) ==> Unharmed(s'.call))
  {
    assert StepCanisterStores(plan, s, i).call.tasks[i] == Stored;
  }

  lemma AgainStep(plan: Plan, s: System, i: nat)
    requires plan.Valid() && Ready(plan, s)
    requires i in s.call.tasks && s.call.tasks[i] == Calling && i in s.file.data
    ensures GoodNext(plan, s, CanisterStores(i))
  {
    assert !Kept(s, i);
    assert Resent(s, i) && Fits(plan, s.file, i);
    CopyIsAccepted(plan, s.file, i);
    AgainIsQuiet(plan, s, i);
    CanisterStoresKeepsInv(plan, s, i, {});
    QuietStep(plan, s, CanisterStores(i));
  }

  // When every permit is held by a missing chunk, all that will be sent again comes later.
  lemma AllUnderWay(plan: Plan, s: System, m: nat, i: nat)
    requires plan.Valid() && Inv(plan, s, {}) && Unharmed(s.call)
    requires !Has(s, Stored) && !Has(s, Counted) && !HasAgain(s)
    requires m in s.call.tasks && s.call.tasks[m] == Calling
    requires (s.call.loop == NeedPermit && s.call.permits == 0) || s.call.loop == Finished
    requires i < |plan.Parts()| && Resent(s, i)
    ensures m < i && plan.concurrency <= Missing(s.file.data, i)
  {
    var c := s.call;
    if i in c.tasks {
      assert false;
    }
    assert c.index <= i;
    var missing := set k: nat | k < i && k !in s.file.data;
    MissingIsCount(s.file.data, i);
    forall k | k in Holders(c.tasks) ensures k in missing {
      assert c.tasks[k] == Calling;
    }
    SubsetSize(Holders(c.tasks), missing);
  }

  lemma MissingChunkFits(plan: Plan, f: FileState, m: nat)
    requires plan.Valid() && FileInv(plan, f) && Accepting(plan, f) && (f.size == 0 || f.size == |plan.content|)
    requires m < |plan.Parts()| && m !in f.data
    ensures PutChunk(f, m, plan.Parts()[m], plan.lim).Some?
  {
    ChunkIsSmall(plan.content, plan.lim.chunkSize, m);
    PrefixFits(f, plan.content, m, plan.lim.chunkSize);
  }

  lemma StoringKeepsRoom(plan: Plan, s: System, m: nat, i: nat)
    requires plan.Valid() && FileInv(plan, s.file) && m < i < |plan.Parts()| && m !in s.file.data
    requires plan.concurrency <= Missing(s.file.data, i) && Fits(plan, s.file, i)
    requires PutChunk(s.file, m, plan.Parts()[m], plan.lim).Some?
    ensures Fits(plan, PutChunk(s.file, m, plan.Parts()[m], plan.lim).value, i)
  {
    StoringCounts(plan, s.file, m);
    MissingAdd(s.file.data, m, plan.Parts()[m], i);
    FullBefore(plan, m, i);
    OneLess(Missing(s.file.data, i), plan.concurrency, plan.lim.chunkSize);
  }

  lemma StoreKeepsRoom(plan: Plan, s: System, m: nat)
    requires plan.Valid() && Ready(plan, s)
    requires !Has(s, Stored) && !Has(s, Counted) && !HasAgain(s)
    requires m in s.call.tasks && s.call.tasks[m] == Calling && m < |plan.Parts()|
    requires (s.call.loop == NeedPermit && s.call.permits == 0) || s.call.loop == Finished
    requires PutChunk(s.file, m, plan.Parts()[m], plan.lim).Some?
    ensures Room(plan, StepCanisterStores(plan, s, m))
  {
    assert m !in s.file.data;
    StoringCounts(plan, s.file, m);
    var s' := StepCanisterStores(plan, s, m);
    forall i: nat | i < |plan.Parts()| && Resent(s', i) ensures Fits(plan, s'.file, i) {
      assert i != m && Resent(s, i);
      AllUnderWay(plan, s, m, i);
      StoringKeepsRoom(plan, s, m, i);
    }
  }

  lemma StoreStep(plan: Plan, s: System, m: nat)
    requires plan.Valid() && Ready(plan, s)
    requires !Has(s, Stored) && !Has(s, Counted) && !HasAgain(s)
    requires m in s.call.tasks && s.call.tasks[m] == Calling
    requires (s.call.loop == NeedPermit && s.call.permits == 0) || s.call.loop == Finished
    ensures GoodNext(plan, s, CanisterStores(m))
  {
    assert m !in s.file.data && !Kept(s, m);
    MissingChunkFits(plan, s.file, m);
    StoreKeepsRoom(plan, s, m);
    CanisterStoresKeepsInv(plan, s, m, {});
  }

  lemma CommitStep(plan: Plan, s: System)
    requires plan.Valid() && Ready(plan, s) && s.call.receiver == Drained
    ensures IsSuccess(Apply(plan, s, Commit(true, true, false)))
  {
    DrainedMeansComplete(plan, s);
  }

  lemma NothingUnderWay(plan: Plan, s: System)
    requires plan.Valid() && Inv(plan, s, {}) && Unharmed(s.call)
    requires !Has(s, Stored) && !Has(s, Counted) && !Has(s, Calling)
    ensures s.call.tasks == map[] && (s.call.loop == NeedPermit ==> 0 < s.call.permits)
  {
    if i :| i in s.call.tasks {
      assert false;
    }
    assert Holders(s.call.tasks) == {};
  }

  lemma BestStepIsGood(plan: Plan, s: System)
    requires plan.Valid() && Ready(plan, s)
    ensures GoodNext(plan, s, BestStep(s))
  {
    var c := s.call;
    if c.receiver == Drained {
      CommitStep(plan, s);
    } else if c.channel != [] {
      ReceiveStep(plan, s);
    } else if Has(s, Stored) {
      var i: nat :| i in c.tasks && c.tasks[i] == Stored && BestStep(s) == Reply(i, true);
      ReplyStep(plan, s, i);
    } else if Has(s, Counted) {
      var i: nat :| i in c.tasks && c.tasks[i] == Counted && BestStep(s) == Send(i);
      SendStep(plan, s, i);
    } else if HasAgain(s) {
      var i: nat :| i in c.tasks && c.tasks[i] == Calling && i in s.file.data && BestStep(s) == CanisterStores(i);
      AgainStep(plan, s, i);
    } else {
      ReadOnIsGood(plan, s);
    }
  }

  lemma ReadOnIsGood(plan: Plan, s: System)
    requires plan.Valid() && Ready(plan, s) && s.call.receiver == Listening && s.call.channel == []
    requires !Has(s, Stored) && !Has(s, Counted) && !HasAgain(s)
    ensures GoodNext(plan, s, BestStep(s))
  {
    var c := s.call;
    if c.loop == HavePermit {
      ReadStep(plan, s);
    } else if c.loop == NeedPermit && 0 < c.permits {
      AcquireStep(plan, s);
    } else if Has(s, Calling) {
      var i: nat :| i in c.tasks && c.tasks[i] == Calling && BestStep(s) == CanisterStores(i);
      StoreStep(plan, s, i);
    } else {
      NothingUnderWay(plan, s);
      CloseStep(plan, s);
    }
  }

  lemma {:induction false} ExecAppend(plan: Plan, s: System, a: seq<Step>, b: seq<Step>)
    requires plan.Valid()
    ensures Exec(plan, s, a + b) == Exec(plan, Exec(plan, s, a), b)
    decreases |a|
  {
    if a == [] {
      assert a + b == b;
    } else {
      assert (a + b)[0] == a[0] && (a + b)[1..] == a[1..] + b;
      ExecAppend(plan, Apply(plan, s, a[0]), a[1..], b);
    }
  }

  lemma {:induction false} ReadyDrains(plan: Plan, s: System) returns (schedule: seq<Step>)
    requires plan.Valid() && Ready(plan, s)
    ensures Retry !in schedule
    ensures var s' := Exec(plan, s, schedule); Ready(plan, s') && s'.call.receiver == Drained
    decreases Rank(plan, s)
  {
    if s.call.receiver == Drained {
      schedule := [];
    } else {
      var step := BestStep(s);
      BestStepIsGood(plan, s);
      StepTakesRank(plan, s, step, {});
      var rest := ReadyDrains(plan, Apply(plan, s, step));
      schedule := [step] + rest;
      assert schedule[1..] == rest;
    }
  }

  lemma ReadySucceeds(plan: Plan, s: System) returns (schedule: seq<Step>)
    requires plan.Valid() && Ready(plan, s)
    ensures Retry !in schedule && IsSuccess(Exec(plan, s, schedule))
  {
    var head := ReadyDrains(plan, s);
    var commit := Commit(true, true, false);
    CommitStep(plan, Exec(plan, s, head));
    schedule := head + [commit];
    ExecAppend(plan, s, head, [commit]);
    assert [commit][1..] == [];
  }

  ghost predicate CanSucceed(plan: Plan, s: System)
    requires plan.Valid()
  {
    exists schedule :: Retry !in schedule && IsSuccess(Exec(plan, s, schedule))
  }

  // Without a retry a call can still succeed if and only if it has, or nothing has failed in
  // it, the file is not readonly, takes chunks or needs none, and every stored chunk that
  // the call will send again has room for a second copy when it is sent as early as possible.
  lemma CanSucceedExactly(plan: Plan, s: System)
    requires plan.Valid() && Inv(plan, s, {})
    ensures CanSucceed(plan, s) <==> IsSuccess(s) || (Unharmed(s.call) && Open(plan, s) && Room(plan, s))
  {
    if IsSuccess(s) {
      assert IsSuccess(Exec(plan, s, []));
    } else if Doomed(s.call) {
      forall schedule: seq<Step> | Retry !in schedule ensures !IsSuccess(Exec(plan, s, schedule)) {
        DoomedNeverSucceeds(plan, s, schedule, {});
      }
    } else if !Open(plan, s) {
      forall schedule: seq<Step> | Retry !in schedule ensures !IsSuccess(Exec(plan, s, schedule)) {
        ClosedForEver(plan, s, schedule);
      }
    } else if Room(plan, s) {
      var schedule := ReadySucceeds(plan, s);
    } else {
      var i: nat :| i < |plan.Parts()| && Resent(s, i) && !Fits(plan, s.file, i);
      forall schedule: seq<Step> | Retry !in schedule ensures !IsSuccess(Exec(plan, s, schedule)) {
        TightNeverSucceeds(plan, s, i, schedule);
      }
    }
  }

  // Success always means the whole file.
  lemma SuccessIsWhole(plan: Plan, s: System, schedule: seq<Step>)
    requires plan.Valid() && Inv(plan, s, {}) && IsSuccess(Exec(plan, s, schedule))
    ensures var f := Exec(plan, s, schedule).file;
            Readable(f, plan.content, plan.lim.chunkSize) && f.hash == Some(Sha3(plan.content))
  {
    ScheduleKeepsInv(plan, s, schedule, {});
  }

  lemma NewFileIsReady(plan: Plan, hash: Option<Digest>)
    requires plan.Valid() && |plan.content| <= plan.lim.maxFileSize
    requires hash.Some? ==> hash.value == Sha3(plan.content)
    ensures Ready(plan, Created(plan, hash))
  {
    StartInv(plan, Created(plan, hash), {});
  }

  // A new file within the limit can always be uploaded.
  lemma NewFileCanSucceed(plan: Plan, hash: Option<Digest>)
    requires plan.Valid() && |plan.content| <= plan.lim.maxFileSize
    requires hash.Some? ==> hash.value == Sha3(plan.content)
    ensures CanSucceed(plan, Created(plan, hash))
  {
    NewFileIsReady(plan, hash);
    CanSucceedExactly(plan, Created(plan, hash));
  }
}
