/** Exactly when an upload can still succeed if it may be retried. */
module UploadRetries {
  import opened Wrappers
  import opened Chunking
  import opened BucketStore
  import opened Upload
  import opened UploadProgress
  import opened UploadSuccess

  ghost predicate NoneBlocked(plan: Plan, s: System)
    requires plan.Valid()
  {
    forall i: nat :: i < |plan.Parts()| ==> !Blocked(plan, s, i)
  }

  // Every stored chunk that is sent again has room for a second copy right now.
  ghost predicate Harvesting(plan: Plan, s: System)
    requires plan.Valid()
  {
    && Inv(plan, s, {}) && s.call.outcome.Running? && s.call.loop != Broken && Open(plan, s)
    && NoneBlocked(plan, s) && NoneLost(s)
  }

  // No stored chunk that was read has failed.
  ghost predicate NoneLost(s: System) {
    forall i: nat :: i < s.call.index && i in s.file.data ==>
      i in s.call.uploaded || (i in s.call.tasks && s.call.tasks[i] != Failed)
  }

  // Send again what is stored, and let everything else fail: it makes no room.
  ghost function HarvestStep(s: System): Step {
    var c := s.call;
    if c.receiver == Listening && c.channel != [] then Receive
    else if Has(s, Stored) then (var i: nat :| i in c.tasks && c.tasks[i] == Stored; Reply(i, true))
    else if Has(s, Counted) then (var i: nat :| i in c.tasks && c.tasks[i] == Counted; Send(i))
    else if Has(s, Failed) then (var i: nat :| i in c.tasks && c.tasks[i] == Failed; Send(i))
    else if HasAgain(s) then (var i: nat :| i in c.tasks && c.tasks[i] == Calling && i in s.file.data; CanisterStores(i))
    else if Has(s, Calling) then (var i: nat :| i in c.tasks && c.tasks[i] == Calling; Reply(i, false))
    else if c.loop == HavePermit then NextFrame
    else if c.loop == NeedPermit then Acquire
    else if c.receiver == Listening then ChannelCloses
    else Commit(true, true, false)
  }

  ghost predicate GoodHarvest(plan: Plan, s: System, step: Step)
    requires plan.Valid()
  {
    var s' := Apply(plan, s, step);
    step != Retry && (IsSuccess(s') || (s' != s && Harvesting(plan, s')))
  }

  // The loop has read everything, nothing is under way, and an error has been seen.
  predicate Harvested(s: System) {
    s.call.loop == Finished && s.call.tasks == map[] && s.call.receiver == GotError
  }

  // A step of a running call that loses nothing.
  ghost predicate Harmless(s: System, s': System) {
    s' != s && s'.call.outcome.Running? && s'.call.loop != Broken && NoMoreToSend(s, s') && NoneLost(s')
  }

  lemma QuietHarvest(plan: Plan, s: System, step: Step)
    requires plan.Valid() && Harvesting(plan, s) && step != Retry
    requires Inv(plan, Apply(plan, s, step), {}) && Harmless(s, Apply(plan, s, step))
    ensures GoodHarvest(plan, s, step)
  {
    var s' := Apply(plan, s, step);
    forall i: nat | i < |plan.Parts()| ensures !Blocked(plan, s', i) {
      assert !Blocked(plan, s, i);
    }
  }

  lemma HarvestStored(plan: Plan, s: System, i: nat)
    requires plan.Valid() && Harvesting(plan, s) && i in s.call.tasks && s.call.tasks[i] == Stored
    ensures GoodHarvest(plan, s, Reply(i, true))
  {
    ReplyKeepsInv(plan, s, i, true, {});
    QuietHarvest(plan, s, Reply(i, true));
  }

  lemma HarvestCalling(plan: Plan, s: System, i: nat)
    requires plan.Valid() && Harvesting(plan, s) && i in s.call.tasks
    requires s.call.tasks[i] == Calling && i !in s.file.data
    ensures GoodHarvest(plan, s, Reply(i, false))
  {
    ReplyKeepsInv(plan, s, i, false, {});
    QuietHarvest(plan, s, Reply(i, false));
  }

  lemma SendIsHarmless(plan: Plan, s: System, i: nat)
    requires plan.Valid() && i in s.call.tasks && (s.call.tasks[i] == Counted || s.call.tasks[i] == Failed)
    requires s.call.outcome.Running? && (s.call.receiver == Listening ==> s.call.channel == [])
    requires NoneLost(s) && s.call.loop != Broken && (i in s.file.data ==> i in s.call.uploaded)
    ensures Harmless(s, StepSend(plan, s, i))
  {
    var s' := StepSend(plan, s, i);
    assert s'.call.tasks == s.call.tasks - {i} && i !in s'.call.tasks;
    assert forall k :: k in s.call.tasks && k != i ==> k in s'.call.tasks && s'.call.tasks[k] == s.call.tasks[k];
  }

  lemma HarvestSend(plan: Plan, s: System, i: nat)
    requires plan.Valid() && Harvesting(plan, s) && i in s.call.tasks
    requires s.call.tasks[i] == Counted || (s.call.tasks[i] == Failed && i !in s.file.data)
    requires s.call.receiver == Listening ==> s.call.channel == []
    ensures GoodHarvest(plan, s, Send(i))
  {
    SendKeepsInv(plan, s, i, {});
    SendIsHarmless(plan, s, i);
    QuietHarvest(plan, s, Send(i));
  }

  lemma HarvestAgain(plan: Plan, s: System, i: nat)
    requires plan.Valid() && Harvesting(plan, s)
    requires i in s.call.tasks && s.call.tasks[i] == Calling && i in s.file.data
    ensures GoodHarvest(plan, s, CanisterStores(i))
  {
    assert !Blocked(plan, s, i) && Resent(s, i);
    CopyIsAccepted(plan, s.file, i);
    CanisterStoresKeepsInv(plan, s, i, {});
    QuietHarvest(plan, s, CanisterStores(i));
  }

  lemma HarvestReceive(plan: Plan, s: System)
    requires plan.Valid() && Harvesting(plan, s) && s.call.receiver == Listening && s.call.channel != []
    ensures GoodHarvest(plan, s, Receive)
  {
    ReceiverKeepsInv(plan, s, {});
    QuietHarvest(plan, s, Receive);
  }

  lemma HarvestClose(plan: Plan, s: System)
    requires plan.Valid() && Harvesting(plan, s) && s.call.receiver == Listening && s.call.channel == []
    requires s.call.tasks == map[] && s.call.loop == Finished
    ensures GoodHarvest(plan, s, ChannelCloses)
  {
    ReceiverKeepsInv(plan, s, {});
    QuietHarvest(plan, s, ChannelCloses);
  }

  lemma HarvestAcquire(plan: Plan, s: System)
    requires plan.Valid() && Harvesting(plan, s) && s.call.loop == NeedPermit && 0 < s.call.permits
    ensures GoodHarvest(plan, s, Acquire)
  {
    QuietHarvest(plan, s, Acquire);
  }

  lemma ReadLosesNone(plan: Plan, s: System)
    requires plan.Valid() && NoneLost(s) && s.call.exclude <= s.call.uploaded && s.call.index !in s.call.tasks
    ensures NoneLost(StepNextFrame(plan, s))
  {
  }

  lemma HarvestRead(plan: Plan, s: System)
    requires plan.Valid() && Harvesting(plan, s) && s.call.loop == HavePermit
    ensures GoodHarvest(plan, s, NextFrame)
  {
    NextFrameKeepsInv(plan, s, {});
    ReadLosesNone(plan, s);
    ReadQuiet(plan, s);
    QuietHarvest(plan, s, NextFrame);
  }

  lemma HarvestStepIsGood(plan: Plan, s: System)
    requires plan.Valid() && Harvesting(plan, s) && !Harvested(s)
    ensures GoodHarvest(plan, s, HarvestStep(s))
  {
    var c := s.call;
    if c.receiver == Listening && c.channel != [] {
      HarvestReceive(plan, s);
    } else if Has(s, Stored) {
      var i: nat :| i in c.tasks && c.tasks[i] == Stored && HarvestStep(s) == Reply(i, true);
      HarvestStored(plan, s, i);
    } else if Has(s, Counted) {
      var i: nat :| i in c.tasks && c.tasks[i] == Counted && HarvestStep(s) == Send(i);
      HarvestSend(plan, s, i);
    } else if Has(s, Failed) {
      var i: nat :| i in c.tasks && c.tasks[i] == Failed && HarvestStep(s) == Send(i);
      HarvestSend(plan, s, i);
    } else if HasAgain(s) {
      var i: nat :| i in c.tasks && c.tasks[i] == Calling && i in s.file.data && HarvestStep(s) == CanisterStores(i);
      HarvestAgain(plan, s, i);
    } else if Has(s, Calling) {
      var i: nat :| i in c.tasks && c.tasks[i] == Calling && HarvestStep(s) == Reply(i, false);
      HarvestCalling(plan, s, i);
    } else {
      HarvestEnds(plan, s);
    }
  }

  lemma HarvestEnds(plan: Plan, s: System)
    requires plan.Valid() && Harvesting(plan, s) && !Harvested(s)
    requires s.call.receiver == Listening ==> s.call.channel == []
    requires !Has(s, Stored) && !Has(s, Counted) && !Has(s, Failed) && !Has(s, Calling)
    ensures GoodHarvest(plan, s, HarvestStep(s))
  {
    var c := s.call;
    if i :| i in c.tasks {
      assert false;
    }
    assert c.tasks == map[] && Holders(c.tasks) == {};
    if c.loop == HavePermit {
      HarvestRead(plan, s);
    } else if c.loop == NeedPermit {
      HarvestAcquire(plan, s);
    } else if c.receiver == Listening {
      HarvestClose(plan, s);
    } else {
      DrainedMeansComplete(plan, s);
    }
  }

  // The retry after a harvest excludes every stored chunk.
  lemma RetryIsReady(plan: Plan, s: System)
    requires plan.Valid() && Harvesting(plan, s) && Harvested(s)
    ensures Ready(plan, StepRetry(plan, StepAbort(s)))
  {
    var aborted := StepAbort(s);
    var next := StepRetry(plan, aborted);
    ApplyKeepsInv(plan, s, Abort, {});
    RetryKeepsInv(plan, aborted, {});
    assert forall i: nat :: Kept(s, i) ==> Kept(next, i);
    assert forall i: nat :: i < |plan.Parts()| ==> !Resent(next, i);
  }

  lemma RetryAfterHarvest(plan: Plan, s: System) returns (schedule: seq<Step>)
    requires plan.Valid() && Harvesting(plan, s) && Harvested(s)
    ensures IsSuccess(Exec(plan, s, schedule))
  {
    RetryIsReady(plan, s);
    var rest := ReadySucceeds(plan, StepRetry(plan, StepAbort(s)));
    schedule := [Abort] + ([Retry] + rest);
    assert schedule[1..] == [Retry] + rest && ([Retry] + rest)[1..] == rest;
  }

  lemma {:induction false} HarvestSucceeds(plan: Plan, s: System) returns (schedule: seq<Step>)
    requires plan.Valid() && Harvesting(plan, s)
    ensures IsSuccess(Exec(plan, s, schedule))
    decreases Rank(plan, s)
  {
    if Harvested(s) {
      schedule := RetryAfterHarvest(plan, s);
    } else {
      var step := HarvestStep(s);
      var s' := Apply(plan, s, step);
      HarvestStepIsGood(plan, s);
      StepTakesRank(plan, s, step, {});
      var rest: seq<Step> := [];
      if !IsSuccess(s') {
        rest := HarvestSucceeds(plan, s');
      }
      schedule := [step] + rest;
      assert schedule[1..] == rest;
    }
  }

  lemma UnharmedHarvests(plan: Plan, s: System)
    requires plan.Valid() && Inv(plan, s, {}) && Unharmed(s.call) && Open(plan, s) && NoneBlocked(plan, s)
    ensures Harvesting(plan, s)
  {
    forall i: nat | i < s.call.index && i in s.file.data
      ensures i in s.call.uploaded || (i in s.call.tasks && s.call.tasks[i] != Failed)
    {
    }
  }

  // ---------------------------------------------------------------- out of a call that has failed

  // Something has failed, but the canister can still say yes in a later call.
  ghost predicate Failing(plan: Plan, s: System)
    requires plan.Valid()
  {
    Inv(plan, s, {}) && s.call.outcome.Running? && !Unharmed(s.call) && Open(plan, s) && NoneBlocked(plan, s)
  }

  // Take home what is stored, then let the error through.
  ghost function FailStep(s: System): Step {
    var c := s.call;
    if Has(s, Stored) then (var i: nat :| i in c.tasks && c.tasks[i] == Stored; Reply(i, true))
    else if c.channel != [] then Receive
    else if Has(s, Failed) then (var i: nat :| i in c.tasks && c.tasks[i] == Failed; Send(i))
    else Abort
  }

  lemma MoreIsKept(plan: Plan, s: System, s': System)
    requires plan.Valid() && Open(plan, s) && NoneBlocked(plan, s) && NoMoreToSend(s, s')
    ensures Open(plan, s') && NoneBlocked(plan, s')
  {
    forall i: nat | i < |plan.Parts()| ensures !Blocked(plan, s', i) {
      assert !Blocked(plan, s, i);
    }
  }

  lemma QuietFail(plan: Plan, s: System, step: Step)
    requires plan.Valid() && Failing(plan, s)
    requires var s' := Apply(plan, s, step); NoMoreToSend(s, s') && s'.call.outcome.Running? && !Unharmed(s'.call)
    ensures Failing(plan, Apply(plan, s, step))
  {
    ApplyKeepsInv(plan, s, step, {});
    MoreIsKept(plan, s, Apply(plan, s, step));
  }

  lemma FailReply(plan: Plan, s: System, i: nat)
    requires plan.Valid() && Failing(plan, s) && i in s.call.tasks && s.call.tasks[i] == Stored
    ensures Apply(plan, s, Reply(i, true)) != s && Failing(plan, Apply(plan, s, Reply(i, true)))
  {
    var c, c' := s.call, Apply(plan, s, Reply(i, true)).call;
    assert forall k: nat :: k in c.tasks && c.tasks[k] == Failed ==> k in c'.tasks && c'.tasks[k] == Failed;
    QuietFail(plan, s, Reply(i, true));
  }

  lemma FailReceive(plan: Plan, s: System)
    requires plan.Valid() && Failing(plan, s) && s.call.receiver == Listening && s.call.channel != []
    ensures Apply(plan, s, Receive) != s && Failing(plan, Apply(plan, s, Receive))
  {
    var c, c' := s.call, Apply(plan, s, Receive).call;
    assert c.channel == [c.channel[0]] + c.channel[1..];
    assert forall k: nat :: k in c.tasks && c.tasks[k] == Failed ==> k in c'.tasks && c'.tasks[k] == Failed;
    QuietFail(plan, s, Receive);
  }

  lemma FailSend(plan: Plan, s: System, i: nat)
    requires plan.Valid() && Failing(plan, s) && i in s.call.tasks && s.call.tasks[i] == Failed
    requires s.call.receiver == Listening && s.call.channel == []
    ensures Apply(plan, s, Send(i)) != s && Failing(plan, Apply(plan, s, Send(i)))
  {
    var s' := Apply(plan, s, Send(i));
    assert s'.call.tasks == s.call.tasks - {i} && s'.call.channel == [false];
    QuietFail(plan, s, Send(i));
  }

  lemma FailStepIsGood(plan: Plan, s: System)
    requires plan.Valid() && Failing(plan, s)
    requires Has(s, Stored) || (s.call.loop != Broken && s.call.receiver != GotError)
    ensures FailStep(s) != Retry && Apply(plan, s, FailStep(s)) != s && Failing(plan, Apply(plan, s, FailStep(s)))
  {
    var c := s.call;
    if Has(s, Stored) {
      var i: nat :| i in c.tasks && c.tasks[i] == Stored && FailStep(s) == Reply(i, true);
      FailReply(plan, s, i);
    } else if c.channel != [] {
      FailReceive(plan, s);
    } else {
      assert c.channel == [];
      assert Has(s, Failed) by {
        if !Has(s, Failed) {
          assert Unharmed(c);
        }
      }
      var i: nat :| i in c.tasks && c.tasks[i] == Failed && FailStep(s) == Send(i);
      FailSend(plan, s, i);
    }
  }

  // A new round with what the last one returned with.
  lemma RetrySucceeds(plan: Plan, s: System) returns (schedule: seq<Step>)
    requires plan.Valid() && Inv(plan, s, {}) && s.call.outcome.Returned? && s.call.outcome.error
    requires Open(plan, s) && NoneBlocked(plan, s)
    ensures IsSuccess(Exec(plan, s, schedule))
  {
    var next := StepRetry(plan, s);
    RetryKeepsInv(plan, s, {});
    MoreIsKept(plan, s, next);
    UnharmedHarvests(plan, next);
    var rest := HarvestSucceeds(plan, next);
    schedule := [Retry] + rest;
    assert schedule[1..] == rest;
  }

  lemma AbortSucceeds(plan: Plan, s: System) returns (schedule: seq<Step>)
    requires plan.Valid() && Failing(plan, s) && !Has(s, Stored)
    requires s.call.loop == Broken || s.call.receiver == GotError
    ensures IsSuccess(Exec(plan, s, schedule))
  {
    var aborted := StepAbort(s);
    ApplyKeepsInv(plan, s, Abort, {});
    MoreIsKept(plan, s, aborted);
    var rest := RetrySucceeds(plan, aborted);
    schedule := [Abort] + rest;
    assert schedule[1..] == rest;
  }

  lemma {:induction false} FailingSucceeds(plan: Plan, s: System) returns (schedule: seq<Step>)
    requires plan.Valid() && Failing(plan, s)
    ensures IsSuccess(Exec(plan, s, schedule))
    decreases Rank(plan, s)
  {
    if !Has(s, Stored) && (s.call.loop == Broken || s.call.receiver == GotError) {
      schedule := AbortSucceeds(plan, s);
    } else {
      var step := FailStep(s);
      FailStepIsGood(plan, s);
      StepTakesRank(plan, s, step, {});
      var rest := FailingSucceeds(plan, Apply(plan, s, step));
      schedule := [step] + rest;
      assert schedule[1..] == rest;
    }
  }

  ghost predicate CanSucceedEver(plan: Plan, s: System)
    requires plan.Valid()
  {
    exists schedule :: IsSuccess(Exec(plan, s, schedule))
  }

  lemma OpenSucceeds(plan: Plan, s: System) returns (schedule: seq<Step>)
    requires plan.Valid() && Inv(plan, s, {}) && !IsSuccess(s) && Open(plan, s) && NoneBlocked(plan, s)
    ensures IsSuccess(Exec(plan, s, schedule))
  {
    if s.call.outcome.Returned? {
      schedule := RetrySucceeds(plan, s);
    } else if Unharmed(s.call) {
      UnharmedHarvests(plan, s);
      schedule := HarvestSucceeds(plan, s);
    } else {
      schedule := FailingSucceeds(plan, s);
    }
  }

  // From any state, in the middle of a call or after it, whatever has failed: with retries
  // the upload can still succeed if and only if it has, or the file is not readonly, takes
  // chunks or needs none, and no stored chunk that will be sent again is without room for a
  // second copy.
  lemma CanSucceedWithRetriesExactly(plan: Plan, s: System)
    requires plan.Valid() && Inv(plan, s, {})
    ensures CanSucceedEver(plan, s) <==> IsSuccess(s) || (Open(plan, s) && NoneBlocked(plan, s))
  {
    if IsSuccess(s) {
      assert IsSuccess(Exec(plan, s, []));
    } else if !Open(plan, s) {
      forall schedule: seq<Step> ensures !IsSuccess(Exec(plan, s, schedule)) {
        ClosedForEver(plan, s, schedule);
      }
    } else if i: nat :| i < |plan.Parts()| && Blocked(plan, s, i) {
      forall schedule: seq<Step> ensures !IsSuccess(Exec(plan, s, schedule)) {
        BlockedForEver(plan, s, i, schedule, {});
      }
    } else {
      var schedule := OpenSucceeds(plan, s);
    }
  }

  // ---------------------------------------------------------------- a lost commit

  // A commit that makes the file readonly, and whose reply is lost: the file is complete and
  // has its digest, but the call reports an error and so will every later one.
  lemma LostCommitBlocksForEver(plan: Plan, s: System, schedule: seq<Step>)
    requires plan.Valid() && Inv(plan, s, {}) && plan.readonly && s.file.status <= 0
    requires s.call.outcome.Running? && s.call.receiver == Drained
    ensures var s' := Apply(plan, s, Commit(true, false, false));
            && Succeeded(plan, s') && s'.call.outcome.Returned? && s'.call.outcome.error
            && !IsSuccess(Exec(plan, s', schedule))
  {
    var s' := Apply(plan, s, Commit(true, false, false));
    DrainedMeansComplete(plan, s);
    CommitSucceeds(plan, s, false);
    ApplyKeepsInv(plan, s, Commit(true, false, false), {});
    ClosedForEver(plan, s', schedule);
  }

  lemma LostCommitBlocksNoChunk(plan: Plan, s: System)
    requires plan.Valid() && Inv(plan, s, {}) && plan.readonly && s.file.status <= 0
    requires s.call.outcome.Running? && s.call.receiver == Drained
    ensures var s' := Apply(plan, s, Commit(true, false, false)); NoneBlocked(plan, s') && !CanSucceedEver(plan, s')
  {
    var s' := Apply(plan, s, Commit(true, false, false));
    forall more: seq<Step> ensures !IsSuccess(Exec(plan, s', more)) {
      LostCommitBlocksForEver(plan, s, more);
    }
    forall i: nat | i < |plan.Parts()| ensures Kept(s', i) {
      if i !in s.call.uploaded {
        NoCommitBefore(plan, s, i, {});
      }
    }
  }

  // Every readonly upload can come to that, although the whole file is in place.
  lemma ReadonlyUploadCanGetStuck(plan: Plan, hash: Option<Digest>) returns (schedule: seq<Step>)
    requires plan.Valid() && plan.readonly && |plan.content| <= plan.lim.maxFileSize
    requires hash.Some? ==> hash.value == Sha3(plan.content)
    ensures var s := Exec(plan, Created(plan, hash), schedule);
            Succeeded(plan, s) && NoneBlocked(plan, s) && !CanSucceedEver(plan, s)
  {
    NewFileIsReady(plan, hash);
    var head := ReadyDrains(plan, Created(plan, hash));
    var lost := Commit(true, false, false);
    schedule := head + [lost];
    ExecAppend(plan, Created(plan, hash), head, [lost]);
    assert [lost][1..] == [];
    LostCommitBlocksForEver(plan, Exec(plan, Created(plan, hash), head), []);
    LostCommitBlocksNoChunk(plan, Exec(plan, Created(plan, hash), head));
  }

  // ---------------------------------------------------------------- a lost reply

  // A file of one byte with a limit of one byte. The byte is stored, its reply is lost, and
  // the upload is tried again.
  const TINY := Plan([7], Limits(1, 1), 1, false)

  const LOST_REPLY: seq<Step> := [Acquire, NextFrame, CanisterStores(0), Reply(0, false), Send(0), Receive, Abort, Retry]

  function AfterLostReply(): System {
    System(FileState(1, 1, 1, 0, None, map[0 := [7]]), {}, Start(TINY, {}, None, Some(1)))
  }

  lemma TinyParts()
    ensures TINY.Valid() && TINY.Parts() == [[7]]
  {
    var content: Bytes := [7];
    assert content[..1] == content && content[1..] == [];
  }

  lemma ExecOne(plan: Plan, s: System, step: Step, rest: seq<Step>)
    requires plan.Valid()
    ensures Exec(plan, s, [step] + rest) == Exec(plan, Apply(plan, s, step), rest)
  {
    assert ([step] + rest)[1..] == rest;
  }

  // The canister has stored the byte; its reply is still under way.
  function TinyStored(): System {
    System(FileState(1, 1, 1, 0, None, map[0 := [7]]), {},
           Call({}, None, Some(1), NeedPermit, 1, [7], 0, map[0 := Stored], [], Listening, 0, {}, Running))
  }

  lemma FirstHalf()
    ensures TINY.Valid()
    ensures Exec(TINY, Created(TINY, None), [Acquire, NextFrame, CanisterStores(0)]) == TinyStored()
  {
    TinyParts();
    var s0 := Created(TINY, None);
    var s1 := Apply(TINY, s0, Acquire);
    var s2 := Apply(TINY, s1, NextFrame);
    assert s2.call.tasks == map[0 := Calling] && s2.call.hashed == [7];
    var s3 := Apply(TINY, s2, CanisterStores(0));
    assert s3 == TinyStored();
    ExecOne(TINY, s0, Acquire, [NextFrame, CanisterStores(0)]);
    ExecOne(TINY, s1, NextFrame, [CanisterStores(0)]);
    ExecOne(TINY, s2, CanisterStores(0), []);
    assert [Acquire] + [NextFrame, CanisterStores(0)] == [Acquire, NextFrame, CanisterStores(0)];
    assert [NextFrame] + [CanisterStores(0)] == [NextFrame, CanisterStores(0)];
    assert [CanisterStores(0)] + [] == [CanisterStores(0)];
  }

  lemma SecondHalf()
    ensures TINY.Valid()
    ensures Exec(TINY, TinyStored(), [Reply(0, false)] + ([Send(0)] + ([Receive] + ([Abort] + ([Retry] + [])))))
            == AfterLostReply()
  {
    TinyParts();
    var s3 := TinyStored();
    var s4 := Apply(TINY, s3, Reply(0, false));
    var s5 := Apply(TINY, s4, Send(0));
    assert s5.call.tasks == map[] && s5.call.channel == [false];
    var s6 := Apply(TINY, s5, Receive);
    var s7 := Apply(TINY, s6, Abort);
    var s8 := Apply(TINY, s7, Retry);
    assert s8 == AfterLostReply();
    ExecOne(TINY, s3, Reply(0, false), [Send(0)] + ([Receive] + ([Abort] + ([Retry] + []))));
    ExecOne(TINY, s4, Send(0), [Receive] + ([Abort] + ([Retry] + [])));
    ExecOne(TINY, s5, Receive, [Abort] + ([Retry] + []));
    ExecOne(TINY, s6, Abort, [Retry] + []);
    ExecOne(TINY, s7, Retry, []);
  }

  // That state is reached, its content is within the limit, nothing has failed in its new
  // call, and yet no schedule at all ends in success.
  lemma LostReplyBlocksForEver(schedule: seq<Step>)
    ensures TINY.Valid() && Exec(TINY, Created(TINY, None), LOST_REPLY) == AfterLostReply()
    ensures Unharmed(AfterLostReply().call) && Accepting(TINY, AfterLostReply().file)
    ensures !IsSuccess(Exec(TINY, AfterLostReply(), schedule))
  {
    TinyParts();
    var first, second := [Acquire, NextFrame, CanisterStores(0)],
                         [Reply(0, false)] + ([Send(0)] + ([Receive] + ([Abort] + ([Retry] + []))));
    FirstHalf();
    SecondHalf();
    ExecAppend(TINY, Created(TINY, None), first, second);
    assert LOST_REPLY == first + second;
    StartInv(TINY, Created(TINY, None), {});
    ScheduleKeepsInv(TINY, Created(TINY, None), LOST_REPLY, {});
    BlockedForEver(TINY, AfterLostReply(), 0, schedule, {});
  }
}
