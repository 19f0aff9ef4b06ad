/** The concurrent, resumable chunk uploader.

  `upload_chunks` is a state machine over its awaits: the reading loop, the tasks it
  spawns under a semaphore, the bounded channel of results and their receiver, and the
  canister on the other side. A `Step` is one thing that can happen next; any sequence of
  steps is a schedule, and a step that is not enabled does nothing.
 */
module Upload {
  import opened Wrappers
  import opened Chunking
  import opened BucketStore
  import opened Download

  datatype Plan = Plan(content: Bytes, lim: Limits, concurrency: nat, readonly: bool) {
    ghost predicate Valid() { lim.Valid() && 0 < concurrency }

    function Parts(): seq<Bytes>
      requires lim.Valid()
    {
      Chunks(content, lim.chunkSize)
    }
  }

  // A spawned upload task. It holds its permit until it is Counted, or, when the call
  // failed, until its error has been sent.
  datatype Task = Calling | Stored | Counted | Failed

  datatype Loop = NeedPermit | HavePermit | Finished | Broken

  datatype Receiver = Listening | Drained | GotError

  // `Returned` carries the snapshot of the shared output that the caller sees.
  datatype Outcome = Running | Returned(error: bool, uploaded: set<nat>, filled: nat)

  datatype Call = Call(
    exclude: set<nat>, hash: Option<Digest>, size: Option<nat>,
    loop: Loop, index: nat, hashed: Bytes, permits: nat,
    tasks: map<nat, Task>, channel: seq<bool>, receiver: Receiver,
    filled: nat, uploaded: set<nat>, outcome: Outcome)

  // `strays` are chunk calls that may still arrive although their task is gone: it got an
  // error first, or its upload_chunks was abandoned.
  datatype System = System(file: FileState, strays: set<nat>, call: Call)

  datatype Step =
    | Acquire
    | NextFrame
    | ReadError
    | CanisterStores(i: nat)
    | Reply(i: nat, ok: bool)
    | Send(i: nat)
    | Receive
    | ChannelCloses
    | Abort
    | Commit(reached: bool, answered: bool, hashConflict: bool)
    | StrayStores(i: nat)
    | Retry

  function Start(plan: Plan, exclude: set<nat>, hash: Option<Digest>, size: Option<nat>): Call {
    Call(exclude, hash, size, NeedPermit, 0, [], plan.concurrency, map[], [], Listening, 0, exclude, Running)
  }

  function StepAcquire(s: System): System {
    var c := s.call;
    if c.outcome.Running? && c.loop == NeedPermit && 0 < c.permits
    then s.(call := c.(loop := HavePermit, permits := c.permits - 1))
    else s
  }

  // frames.next(): the end of the stream, an excluded chunk, or a chunk to spawn a task for.
  function StepNextFrame(plan: Plan, s: System): System
    requires plan.Valid()
  {
    var c := s.call;
    if !(c.outcome.Running? && c.loop == HavePermit) then s
    else if c.index >= |plan.Parts()| then s.(call := c.(loop := Finished, permits := c.permits + 1))
    else
      var chunk := plan.Parts()[c.index];
      var c' := c.(index := c.index + 1, loop := NeedPermit,
                   hashed := if c.hash == None then c.hashed + chunk else c.hashed);
      if c.index in c.exclude
      then s.(call := c'.(filled := c.filled + |chunk|, permits := c.permits + 1))
      else s.(call := c'.(tasks := c.tasks[c.index := Calling]))
  }

  function StepReadError(s: System): System {
    var c := s.call;
    if c.outcome.Running? && c.loop == HavePermit
    then s.(call := c.(loop := Broken, permits := c.permits + 1))
    else s
  }

  function StepCanisterStores(plan: Plan, s: System, i: nat): System
    requires plan.Valid()
  {
    var c := s.call;
    if i in c.tasks && c.tasks[i] == Calling && i < |plan.Parts()|
    then
      var put := PutChunk(s.file, i, plan.Parts()[i], plan.lim);
      if put.Some? then s.(file := put.value, call := c.(tasks := c.tasks[i := Stored])) else s
    else s
  }

  // The spawned upload learns how its call went: an error may come back whether or not the
  // canister stored the chunk, a success only if it did.
  function StepReply(plan: Plan, s: System, i: nat, ok: bool): System
    requires plan.Valid()
  {
    var c := s.call;
    if i !in c.tasks || (c.tasks[i] != Calling && c.tasks[i] != Stored) || i >= |plan.Parts()| then s
    else if !ok then
      s.(call := c.(tasks := c.tasks[i := Failed]),
         strays := if c.tasks[i] == Calling then s.strays + {i} else s.strays)
    else if c.tasks[i] == Stored then
      s.(call := c.(tasks := c.tasks[i := Counted], filled := c.filled + |plan.Parts()[i]|,
                    uploaded := c.uploaded + {i}, permits := c.permits + 1))
    else s
  }

  // The bounded channel blocks a sender while it is full; once the receiver is gone a
  // send fails and the upload ends.
  function StepSend(plan: Plan, s: System, i: nat): System {
    var c := s.call;
    if i !in c.tasks || (c.tasks[i] != Counted && c.tasks[i] != Failed) then s
    else
      var ok := c.tasks[i] == Counted;
      var c' := c.(tasks := c.tasks - {i}, permits := if ok then c.permits else c.permits + 1);
      if c.receiver != Listening || c.outcome.Returned? then s.(call := c')
      else if |c.channel| < plan.concurrency then s.(call := c'.(channel := c.channel + [ok]))
      else s
  }

  function StepReceive(s: System): System {
    var c := s.call;
    if c.outcome.Running? && c.receiver == Listening && c.channel != []
    then s.(call := c.(channel := c.channel[1..], receiver := if c.channel[0] then Listening else GotError))
    else s
  }

  // recv() yields None once every sender, the loop's own included, has been dropped.
  function StepChannelCloses(s: System): System {
    var c := s.call;
    if c.outcome.Running? && c.receiver == Listening && c.channel == [] && c.tasks == map[] && c.loop == Finished
    then s.(call := c.(receiver := Drained))
    else s
  }

  // try_join returns the first error; the spawned tasks live on.
  function StepAbort(s: System): System {
    var c := s.call;
    if c.outcome.Running? && (c.loop == Broken || c.receiver == GotError)
    then s.(call := c.(outcome := Returned(true, c.uploaded, c.filled)))
    else s
  }

  function StepCommit(plan: Plan, s: System, reached: bool, answered: bool, conflict: bool): System {
    var c := s.call;
    if c.outcome.Running? && c.loop == Finished && c.receiver == Drained then
      var digest := c.hash.GetOr(Sha3(c.hashed));
      var updated := UpdateFile(s.file, c.size, if plan.readonly then Some(1) else None, Some(digest), conflict);
      if reached && updated.Some?
      then s.(file := updated.value, call := c.(outcome := Returned(!answered, c.uploaded, c.filled)))
      else s.(call := c.(outcome := Returned(true, c.uploaded, c.filled)))
    else s
  }

  function StepStrayStores(plan: Plan, s: System, i: nat): System
    requires plan.Valid()
  {
    if i in s.strays && i < |plan.Parts()| then
      var put := PutChunk(s.file, i, plan.Parts()[i], plan.lim);
      s.(strays := s.strays - {i}, file := if put.Some? then put.value else s.file)
    else s
  }

  // The next round of upload_file's retry loop.
  function StepRetry(plan: Plan, s: System): System {
    var c := s.call;
    if c.outcome.Returned? && c.outcome.error then
      s.(strays := s.strays + (set i | i in c.tasks && c.tasks[i] == Calling),
         call := Start(plan, c.outcome.uploaded, None, c.size))
    else s
  }

  function Apply(plan: Plan, s: System, step: Step): System
    requires plan.Valid()
  {
    match step
    case Acquire => StepAcquire(s)
    case NextFrame => StepNextFrame(plan, s)
    case ReadError => StepReadError(s)
    case CanisterStores(i) => StepCanisterStores(plan, s, i)
    case Reply(i, ok) => StepReply(plan, s, i, ok)
    case Send(i) => StepSend(plan, s, i)
    case Receive => StepReceive(s)
    case ChannelCloses => StepChannelCloses(s)
    case Abort => StepAbort(s)
    case Commit(reached, answered, conflict) => StepCommit(plan, s, reached, answered, conflict)
    case StrayStores(i) => StepStrayStores(plan, s, i)
    case Retry => StepRetry(plan, s)
  }

  function Exec(plan: Plan, s: System, schedule: seq<Step>): System
    requires plan.Valid()
    decreases |schedule|
  {
    if schedule == [] then s else Exec(plan, Apply(plan, s, schedule[0]), schedule[1..])
  }

  // ---------------------------------------------------------------- invariant

  ghost function Holders(tasks: map<nat, Task>): set<nat> {
    set i | i in tasks && tasks[i] != Counted
  }

  // Bytes of the chunks below `index` that are in `uploaded`.
  ghost function BytesOf(parts: seq<Bytes>, uploaded: set<nat>, index: nat): nat
    requires index <= |parts|
  {
    if index == 0 then 0
    else BytesOf(parts, uploaded, index - 1) + (if index - 1 in uploaded then |parts[index - 1]| else 0)
  }

  // The declared size is absent or right, and a digest handed in is the file's own.
  ghost predicate HonestCall(plan: Plan, c: Call) {
    && (c.size.Some? ==> c.size.value == |plan.content|)
    && (c.hash.Some? ==> c.hash.value == Sha3(plan.content))
  }

  ghost predicate FileInv(plan: Plan, f: FileState)
    requires plan.Valid()
  {
    && PartOf(f, plan.content, plan.lim.chunkSize)
    && (f.size == 0 || f.filled <= f.size)
  }

  ghost predicate Succeeded(plan: Plan, s: System)
    requires plan.Valid()
  {
    && Readable(s.file, plan.content, plan.lim.chunkSize)
    && s.file.hash == Some(Sha3(plan.content))
  }

  // What holds when every chunk to exclude was stored from the start.
  ghost predicate Trustworthy(plan: Plan, s: System)
    requires plan.Valid()
  {
    && (s.file.size == 0 || s.file.size == |plan.content|)
    && (s.call.outcome.Returned? && !s.call.outcome.error ==> Succeeded(plan, s))
  }

  ghost predicate PermitInv(plan: Plan, c: Call) {
    c.permits + |Holders(c.tasks)| + (if c.loop == HavePermit then 1 else 0) == plan.concurrency
  }

  ghost predicate TaskInv(plan: Plan, s: System, unsure: set<nat>)
    requires plan.Valid()
  {
    var c := s.call;
    && (forall i: nat :: i in c.tasks ==>
          && i < c.index && i !in c.exclude
          && (c.tasks[i] == Stored || c.tasks[i] == Counted ==> i in s.file.data)
          && (i in c.uploaded <==> c.tasks[i] == Counted))
    && (forall i: nat :: i in c.uploaded ==> (i in s.file.data || i in unsure) && (i in c.exclude || i < c.index))
    && c.exclude <= c.uploaded
    && (c.outcome.Returned? ==> c.outcome.uploaded <= c.uploaded)
  }

  ghost predicate CountInv(plan: Plan, c: Call)
    requires plan.Valid()
  {
    && c.index <= |plan.Parts()|
    && c.filled == BytesOf(plan.Parts(), c.uploaded, c.index)
    && (c.hash == None ==> c.hashed == Concat(plan.Parts()[..c.index]))
    && (c.loop == Finished ==> c.index == |plan.Parts()|)
  }

  // A chunk that was read and is neither stored, nor excluded, nor under way has left an
  // error that the receiver has seen or will see.
  ghost predicate NoneForgotten(c: Call) {
    && (forall i: nat :: i < c.index && i !in c.uploaded && i !in c.tasks ==>
          false in c.channel || c.receiver == GotError || c.outcome.Returned?)
    && (c.receiver == Drained ==> c.channel == [] && c.tasks == map[] && c.loop == Finished)
  }

  // `unsure` are chunks that the first call was told to exclude although they may not be
  // stored.
  ghost predicate Inv(plan: Plan, s: System, unsure: set<nat>)
    requires plan.Valid()
  {
    && HonestCall(plan, s.call)
    && FileInv(plan, s.file)
    && PermitInv(plan, s.call)
    && TaskInv(plan, s, unsure)
    && CountInv(plan, s.call)
    && NoneForgotten(s.call)
    && (unsure == {} ==> Trustworthy(plan, s))
  }

  // ---------------------------------------------------------------- preservation

  lemma HoldersSet(tasks: map<nat, Task>, i: nat, t: Task)
    ensures |Holders(tasks[i := t])| ==
            |Holders(tasks)| - (if i in tasks && tasks[i] != Counted then 1 else 0)
            + (if t != Counted then 1 else 0)
  {
    var before, after := Holders(tasks), Holders(tasks[i := t]);
    assert before - {i} == after - {i};
    assert |before - {i}| == |before| - (if i in before then 1 else 0);
    assert |after - {i}| == |after| - (if i in after then 1 else 0);
  }

  lemma HoldersRemove(tasks: map<nat, Task>, i: nat)
    requires i in tasks
    ensures |Holders(tasks - {i})| == |Holders(tasks)| - (if tasks[i] != Counted then 1 else 0)
  {
    var before, after := Holders(tasks), Holders(tasks - {i});
    assert before - {i} == after;
  }

  lemma {:induction false} BytesOfAdd(parts: seq<Bytes>, uploaded: set<nat>, i: nat, index: nat)
    requires i < index <= |parts| && i !in uploaded
    ensures BytesOf(parts, uploaded + {i}, index) == BytesOf(parts, uploaded, index) + |parts[i]|
  {
    if i < index - 1 {
      BytesOfAdd(parts, uploaded, i, index - 1);
    } else {
      BytesOfIgnores(parts, uploaded, i, i);
    }
  }

  lemma {:induction false} BytesOfIgnores(parts: seq<Bytes>, uploaded: set<nat>, i: nat, index: nat)
    requires index <= i && index <= |parts|
    ensures BytesOf(parts, uploaded + {i}, index) == BytesOf(parts, uploaded, index)
  {
    if 0 < index {
      BytesOfIgnores(parts, uploaded, i, index - 1);
    }
  }

  // Storing a chunk of the content in its place, again or for the first time.
  lemma StoreKeepsFile(plan: Plan, f: FileState, i: nat)
    requires plan.Valid() && FileInv(plan, f) && i < |plan.Parts()|
    ensures var put := PutChunk(f, i, plan.Parts()[i], plan.lim);
            put.Some? ==>
              && FileInv(plan, put.value)
              && put.value.size == f.size
              && put.value.data == f.data[i := plan.Parts()[i]]
              && (Readable(f, plan.content, plan.lim.chunkSize) ==>
                    put.value == f)
  {
    var put := PutChunk(f, i, plan.Parts()[i], plan.lim);
    if put.Some? {
      PutChunkAccounts(f, i, plan.Parts()[i], plan.lim);
      if Readable(f, plan.content, plan.lim.chunkSize) {
        assert put.value.data == f.data;
        assert put.value.chunks == f.chunks;
      }
    }
  }

  // Once the loop has ended and the receiver has drained the channel, every chunk is stored.
  lemma DrainedMeansComplete(plan: Plan, s: System)
    requires plan.Valid() && Inv(plan, s, {}) && s.call.loop == Finished && s.call.receiver == Drained
    requires s.call.outcome.Running?
    ensures Holds(s.file, plan.content, plan.lim.chunkSize) && s.file.filled == |plan.content|
  {
    var parts := plan.Parts();
    assert forall i: nat :: i < |parts| ==> i in s.call.uploaded;
    assert 0 < |parts| ==> |parts| - 1 in s.file.data;
    FilledMeansComplete(s.file, plan.content, plan.lim.chunkSize);
  }

  lemma FinalUpdate(f: FileState, length: nat, size: Option<nat>, status: Option<int>, digest: Digest,
                    conflict: bool)
    requires f.filled == length && (f.size == 0 || f.size == length) && (size.Some? ==> size.value == length)
    ensures var updated := UpdateFile(f, size, status, Some(digest), conflict);
            updated.Some? ==>
              updated.value == f.(size := length, status := updated.value.status, hash := Some(digest))
  {
  }

  lemma CommitDigest(plan: Plan, c: Call)
    requires plan.Valid() && HonestCall(plan, c) && CountInv(plan, c) && c.loop == Finished
    ensures c.hash.GetOr(Sha3(c.hashed)) == Sha3(plan.content)
  {
    var parts := plan.Parts();
    ChunksRoundTrip(plan.content, plan.lim.chunkSize);
    assert parts[..|parts|] == parts;
  }

  lemma CommitSucceeds(plan: Plan, s: System, conflict: bool)
    requires plan.Valid() && Inv(plan, s, {}) && s.call.loop == Finished && s.call.receiver == Drained
    requires s.call.outcome.Running?
    ensures var updated := UpdateFile(s.file, s.call.size, if plan.readonly then Some(1) else None,
                                      Some(s.call.hash.GetOr(Sha3(s.call.hashed))), conflict);
            updated.Some? ==> FileInv(plan, updated.value) && Succeeded(plan, s.(file := updated.value))
                              && updated.value.data == s.file.data
  {
    DrainedMeansComplete(plan, s);
    CommitDigest(plan, s.call);
    FinalUpdate(s.file, |plan.content|, s.call.size, if plan.readonly then Some(1) else None,
                Sha3(plan.content), conflict);
  }

  lemma ReadOneMore(plan: Plan, c: Call)
    requires plan.Valid() && CountInv(plan, c) && c.index < |plan.Parts()|
    ensures c.hash == None ==> c.hashed + plan.Parts()[c.index] == Concat(plan.Parts()[..c.index + 1])
  {
    ConcatNext(plan.Parts(), c.index);
  }

  lemma ExcludedFrameKeepsInv(plan: Plan, s: System, unsure: set<nat>)
    requires plan.Valid() && Inv(plan, s, unsure) && s.call.outcome.Running? && s.call.loop == HavePermit
    requires s.call.index < |plan.Parts()| && s.call.index in s.call.exclude
    ensures Inv(plan, StepNextFrame(plan, s), unsure)
  {
    ReadOneMore(plan, s.call);
  }

  lemma SpawnedFrameKeepsInv(plan: Plan, s: System, unsure: set<nat>)
    requires plan.Valid() && Inv(plan, s, unsure) && s.call.outcome.Running? && s.call.loop == HavePermit
    requires s.call.index < |plan.Parts()| && s.call.index !in s.call.exclude
    ensures Inv(plan, StepNextFrame(plan, s), unsure)
  {
    ReadOneMore(plan, s.call);
    HoldersSet(s.call.tasks, s.call.index, Calling);
  }

  lemma NextFrameKeepsInv(plan: Plan, s: System, unsure: set<nat>)
    requires plan.Valid() && Inv(plan, s, unsure)
    ensures Inv(plan, StepNextFrame(plan, s), unsure)
  {
    var c := s.call;
    if c.outcome.Running? && c.loop == HavePermit && c.index < |plan.Parts()| {
      if c.index in c.exclude {
        ExcludedFrameKeepsInv(plan, s, unsure);
      } else {
        SpawnedFrameKeepsInv(plan, s, unsure);
      }
    }
  }

  lemma CanisterStoresKeepsInv(plan: Plan, s: System, i: nat, unsure: set<nat>)
    requires plan.Valid() && Inv(plan, s, unsure)
    ensures Inv(plan, StepCanisterStores(plan, s, i), unsure)
  {
    var c := s.call;
    if i in c.tasks && i < |plan.Parts()| {
      StoreKeepsFile(plan, s.file, i);
      HoldersSet(c.tasks, i, Stored);
    }
  }

  lemma ReplyKeepsInv(plan: Plan, s: System, i: nat, ok: bool, unsure: set<nat>)
    requires plan.Valid() && Inv(plan, s, unsure)
    ensures Inv(plan, StepReply(plan, s, i, ok), unsure)
  {
    var c := s.call;
    if i in c.tasks && i < |plan.Parts()| {
      HoldersSet(c.tasks, i, if ok then Counted else Failed);
      if i !in c.uploaded {
        BytesOfAdd(plan.Parts(), c.uploaded, i, c.index);
      }
    }
  }

  lemma SentResultIsRemembered(plan: Plan, s: System, i: nat, unsure: set<nat>)
    requires plan.Valid() && Inv(plan, s, unsure)
    ensures NoneForgotten(StepSend(plan, s, i).call)
  {
    var c, c' := s.call, StepSend(plan, s, i).call;
    assert false in c.channel ==> false in c'.channel;
    if i in c.tasks && c.tasks[i] == Failed && c'.tasks != c.tasks && c.receiver == Listening && c.outcome.Running? {
      assert c'.channel[|c.channel|] == false;
    }
  }

  lemma SendKeepsInv(plan: Plan, s: System, i: nat, unsure: set<nat>)
    requires plan.Valid() && Inv(plan, s, unsure)
    ensures Inv(plan, StepSend(plan, s, i), unsure)
  {
    SentResultIsRemembered(plan, s, i, unsure);
    if i in s.call.tasks {
      HoldersRemove(s.call.tasks, i);
    }
  }

  lemma ReceiverKeepsInv(plan: Plan, s: System, unsure: set<nat>)
    requires plan.Valid() && Inv(plan, s, unsure)
    ensures Inv(plan, StepReceive(s), unsure) && Inv(plan, StepChannelCloses(s), unsure)
  {
    var c := s.call;
    if c.channel != [] {
      assert c.channel == [c.channel[0]] + c.channel[1..];
    }
  }

  // A commit keeps the byte count exact in any case: it never shrinks the file.
  lemma CommitKeepsFile(plan: Plan, s: System, conflict: bool)
    requires plan.Valid() && HonestCall(plan, s.call) && FileInv(plan, s.file)
    ensures var updated := UpdateFile(s.file, s.call.size, if plan.readonly then Some(1) else None,
                                      Some(s.call.hash.GetOr(Sha3(s.call.hashed))), conflict);
            updated.Some? ==> FileInv(plan, updated.value) && updated.value.data == s.file.data
  {
    FilledMeansComplete(s.file, plan.content, plan.lim.chunkSize);
  }

  lemma CommitKeepsInv(plan: Plan, s: System, reached: bool, answered: bool, conflict: bool, unsure: set<nat>)
    requires plan.Valid() && Inv(plan, s, unsure)
    ensures Inv(plan, StepCommit(plan, s, reached, answered, conflict), unsure)
  {
    var c := s.call;
    if c.outcome.Running? && c.loop == Finished && c.receiver == Drained {
      CommitKeepsFile(plan, s, conflict);
      if unsure == {} {
        CommitSucceeds(plan, s, conflict);
      }
    }
  }

  lemma StrayStoresKeepsInv(plan: Plan, s: System, i: nat, unsure: set<nat>)
    requires plan.Valid() && Inv(plan, s, unsure)
    ensures Inv(plan, StepStrayStores(plan, s, i), unsure)
  {
    if i in s.strays && i < |plan.Parts()| {
      StoreKeepsFile(plan, s.file, i);
    }
  }

  lemma RetryKeepsInv(plan: Plan, s: System, unsure: set<nat>)
    requires plan.Valid() && Inv(plan, s, unsure)
    ensures Inv(plan, StepRetry(plan, s), unsure)
  {
    assert plan.Parts()[..0] == [];
  }

  lemma ApplyKeepsInv(plan: Plan, s: System, step: Step, unsure: set<nat>)
    requires plan.Valid() && Inv(plan, s, unsure)
    ensures Inv(plan, Apply(plan, s, step), unsure)
  {
    match step
    case Acquire =>
    case NextFrame => NextFrameKeepsInv(plan, s, unsure);
    case ReadError =>
    case CanisterStores(i) => CanisterStoresKeepsInv(plan, s, i, unsure);
    case Reply(i, ok) => ReplyKeepsInv(plan, s, i, ok, unsure);
    case Send(i) => SendKeepsInv(plan, s, i, unsure);
    case Receive => ReceiverKeepsInv(plan, s, unsure);
    case ChannelCloses => ReceiverKeepsInv(plan, s, unsure);
    case Abort =>
    case Commit(reached, answered, conflict) => CommitKeepsInv(plan, s, reached, answered, conflict, unsure);
    case StrayStores(i) => StrayStoresKeepsInv(plan, s, i, unsure);
    case Retry => RetryKeepsInv(plan, s, unsure);
  }

  // ---------------------------------------------------------------- theorems

  lemma {:induction false} ScheduleKeepsInv(plan: Plan, s: System, schedule: seq<Step>, unsure: set<nat>)
    requires plan.Valid() && Inv(plan, s, unsure)
    ensures Inv(plan, Exec(plan, s, schedule), unsure)
    decreases |schedule|
  {
    if schedule != [] {
      ApplyKeepsInv(plan, s, schedule[0], unsure);
      ScheduleKeepsInv(plan, Apply(plan, s, schedule[0]), schedule[1..], unsure);
    }
  }

  lemma StartInv(plan: Plan, s: System, unsure: set<nat>)
    requires plan.Valid() && FileInv(plan, s.file) && HonestCall(plan, s.call)
    requires s.call == Start(plan, s.call.exclude, s.call.hash, s.call.size)
    requires unsure == s.call.exclude - s.file.data.Keys
    requires unsure == {} ==> s.file.size == 0 || s.file.size == |plan.content|
    ensures Inv(plan, s, unsure)
  {
    assert plan.Parts()[..0] == [];
    assert Holders(map[]) == {};
  }

  // upload_chunks, over every interleaving, stray calls and retries included: the caller
  // passes the size if it knows it, a digest if it has one, and any chunks to exclude. The
  // chunks it excludes although they are not stored are `unsure`.
  lemma UploadChunksIsCorrect(plan: Plan, s0: System, schedule: seq<Step>)
    requires plan.Valid() && FileInv(plan, s0.file) && HonestCall(plan, s0.call)
    requires s0.file.size == 0 || s0.file.size == |plan.content|
    requires s0.call == Start(plan, s0.call.exclude, s0.call.hash, s0.call.size)
    ensures var s := Exec(plan, s0, schedule);
            var c := s.call;
            var unsure := s0.call.exclude - s0.file.data.Keys;
            // no more calls under way than permits
            && |Holders(c.tasks)| <= plan.concurrency
            // the reported chunks are in the store, with the right bytes
            && (c.outcome.Returned? ==>
                  forall i: nat :: i in c.outcome.uploaded && i !in unsure ==>
                    i < |plan.Parts()| && i in s.file.data && s.file.data[i] == plan.Parts()[i])
            // `filled` counts the excluded chunks seen and the chunks newly stored
            && c.index <= |plan.Parts()| && c.filled == BytesOf(plan.Parts(), c.uploaded, c.index)
            // if all excluded chunks were stored, the commit call is made only when every
            // chunk is, and success means the whole content and its own digest, for good
            && (unsure == {} && StepCommit(plan, s, true, true, false) != s ==>
                  Holds(s.file, plan.content, plan.lim.chunkSize))
            && (unsure == {} && c.outcome.Returned? && !c.outcome.error ==>
                  && Readable(s.file, plan.content, plan.lim.chunkSize)
                  && s.file.hash == Some(Sha3(plan.content)))
  {
    var unsure := s0.call.exclude - s0.file.data.Keys;
    StartInv(plan, s0, unsure);
    ScheduleKeepsInv(plan, s0, schedule, unsure);
    var s := Exec(plan, s0, schedule);
    if unsure == {} && s.call.outcome.Running? && s.call.loop == Finished && s.call.receiver == Drained {
      DrainedMeansComplete(plan, s);
    }
  }

  // Whatever was uploaded with success is what a reader gets, however it asks for it.
  lemma UploadThenDownload(plan: Plan, s0: System, schedule: seq<Step>, header: RangeHeader, condition: IfRange,
                           maxPerCall: nat)
    requires plan.Valid() && FileInv(plan, s0.file) && HonestCall(plan, s0.call)
    requires s0.file.size == 0 || s0.file.size == |plan.content|
    requires s0.call == Start(plan, s0.call.exclude, s0.call.hash, s0.call.size)
    requires s0.call.exclude <= s0.file.data.Keys
    requires var c := Exec(plan, s0, schedule).call; c.outcome.Returned? && !c.outcome.error
    requires 0 < maxPerCall
    ensures var f := Exec(plan, s0, schedule).file;
            && f.hash == Some(Sha3(plan.content))
            && RightAnswer(Answer(Some(f), header, condition, plan.lim.chunkSize, maxPerCall), f, plan.content,
                           header, condition, maxPerCall)
  {
    assert s0.call.exclude - s0.file.data.Keys == {};
    UploadChunksIsCorrect(plan, s0, schedule);
    ReadableIsServed(Exec(plan, s0, schedule).file, plan.content, header, condition, plan.lim.chunkSize, maxPerCall);
  }

  // ---------------------------------------------------------------- the command line tool

  datatype UploadResult = Uploaded | UploadFailed | Hung

  // The system after create_file, and after round k of upload_file.
  function Created(plan: Plan, hash: Option<Digest>): System {
    System(NewFile(|plan.content|, hash), {}, Start(plan, {}, hash, Some(|plan.content|)))
  }

  function AfterRound(plan: Plan, hash: Option<Digest>, rounds: seq<seq<Step>>, k: nat): System
    requires plan.Valid() && k < |rounds|
  {
    if k == 0 then Exec(plan, Created(plan, hash), rounds[0])
    else Exec(plan, StepRetry(plan, AfterRound(plan, hash, rounds, k - 1)), rounds[k])
  }

  lemma {:induction false} AfterRoundInv(plan: Plan, hash: Option<Digest>, rounds: seq<seq<Step>>, k: nat)
    requires plan.Valid() && k < |rounds| && (hash.Some? ==> hash.value == Sha3(plan.content))
    ensures Inv(plan, AfterRound(plan, hash, rounds, k), {})
  {
    if k == 0 {
      StartInv(plan, Created(plan, hash), {});
      ScheduleKeepsInv(plan, Created(plan, hash), rounds[0], {});
    } else {
      AfterRoundInv(plan, hash, rounds, k - 1);
      var s := AfterRound(plan, hash, rounds, k - 1);
      RetryKeepsInv(plan, s, {});
      ScheduleKeepsInv(plan, StepRetry(plan, s), rounds[k], {});
    }
  }

  // upload_file after create_file: one upload_chunks per round, at most 1 + retry of them.
  // `rounds` says how the world behaves in each round.
  method UploadFile(plan: Plan, hash: Option<Digest>, retry: nat, rounds: seq<seq<Step>>)
    returns (r: UploadResult, s: System)
    requires plan.Valid() && |rounds| == 1 + retry
    requires forall k :: 0 <= k < |rounds| ==> Retry !in rounds[k]
    requires hash.Some? ==> hash.value == Sha3(plan.content)
    ensures r == Uploaded ==>
              && Readable(s.file, plan.content, plan.lim.chunkSize)
              && s.file.hash == Some(Sha3(plan.content))
    ensures r == UploadFailed <==>
              forall k: nat :: k < |rounds| ==>
                var outcome := AfterRound(plan, hash, rounds, k).call.outcome;
                outcome.Returned? && outcome.error
    ensures r == Hung ==> s.call.outcome == Running
  {
    s := Exec(plan, Created(plan, hash), rounds[0]);
    var i := 0;
    while s.call.outcome.Returned? && s.call.outcome.error
      invariant 0 <= i <= retry && s == AfterRound(plan, hash, rounds, i)
      invariant forall k: nat :: k < i ==>
                  var outcome := AfterRound(plan, hash, rounds, k).call.outcome;
                  outcome.Returned? && outcome.error
      decreases retry - i
    {
      i := i + 1;
      if i > retry {
        return UploadFailed, s;
      }
      s := Exec(plan, StepRetry(plan, s), rounds[i]);
    }
    AfterRoundInv(plan, hash, rounds, i);
    r := if s.call.outcome.Running? then Hung else Uploaded;
  }

  // The one-call path of `upload` for a small file whose size is known.
  method UploadSmall(store: FsStore, pieces: seq<Bytes>, size: nat, hash: Option<Digest>, readonly: bool)
    returns (r: Option<nat>)
    requires store.Valid() && forall i :: 0 <= i < |pieces| ==> pieces[i] != []
    modifies store
    ensures store.Valid()
    ensures r.Some? <==> 0 < size == |Concat(pieces)| <= store.lim.maxFileSize
    ensures r.Some? ==>
              && r.value in store.files
              && Readable(store.files[r.value], Concat(pieces), store.lim.chunkSize)
              && store.files[r.value].hash == Some(hash.GetOr(Sha3(Concat(pieces))))
              && store.files[r.value].status == (if readonly then 1 else 0)
    ensures r == None ==> store.files == old(store.files)
  {
    var read := TryReadAll(pieces, size);
    if read.Failure? {
      return None;
    }
    var digest := hash.GetOr(Sha3(read.value));
    r := store.CreateFile(size, Some(digest), read.value, if readonly then Some(1) else None);
  }
}
