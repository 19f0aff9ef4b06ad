/** `updateClient`: WATCH, GET, MULTI/EXEC, and again after a conflict, at most five times.

  A watch belongs to one caller. Any number of callers interleave at their awaits; a watch
  is spoilt by every write to the watched key, also one that leaves the value alone.
  `createClient` is two awaited writes, SET and then SADD to the status index, and looks at
  nothing: `login` has looked several awaits earlier. Updates of the client, and creations
  by other logins, can land before the SET and between the two.
 */
module OptimisticLock {
  import opened Wrappers
  import opened RedisSets

  const MAX_RETRIES: nat := 5

  datatype Status = Active | Inactive | Suspended

  // A client record: its status, and its other fields by name.
  datatype Client = Client(status: Status, fields: map<string, string>)

  datatype Patch = Patch(status: Option<Status>, fields: map<string, string>)

  function Merge(c: Client, p: Patch): Client {
    Client(p.status.GetOr(c.status), c.fields + p.fields)
  }

  datatype Write = Created(user: string, client: Client) | Patched(caller: nat, user: string, patch: Patch)

  datatype Phase =
    | Begin
    | Watching(spoilt: bool)
    | Prepared(snapshot: Client, spoiltSince: bool)
    | BackingOff
    | Succeeded
    | Conflicted
    | Missing

  // `since` and `mark` are lengths of the write log: when the call began, and when it last
  // set its watch or lost a conflict.
  datatype Caller = Caller(user: string, patch: Patch, phase: Phase, conflicts: nat, since: nat, mark: nat)

  // A user listed under a status.
  datatype Entry = Entry(user: string, status: Status)

  // `adding` are the creations between their two writes, each with the entry that it will
  // add. `stale` is history: the index entries that creations have left behind.
  datatype System = System(
    records: map<string, Client>, index: map<Status, set<string>>, stale: set<Entry>,
    adding: map<nat, Entry>, callers: map<nat, Caller>, log: seq<Write>)

  datatype Step =
    | CreateSet(id: nat, user: string, client: Client)
    | CreateAdd(id: nat)
    | Call(id: nat, user: string, patch: Patch)
    | Watch(id: nat)
    | Read(id: nat)
    | Exec(id: nat)
    | BackoffEnds(id: nat)

  // sRem and sAdd inside the transaction, only when the status changes.
  function MoveIndex(index: map<Status, set<string>>, user: string, from: Status, to: Option<Status>)
    : map<Status, set<string>>
  {
    if to == None || to.value == from then index
    else SAdd(SRem(index, from, user), to.value, user)
  }

  function Spoil(c: Caller, user: string): Caller {
    if c.user != user then c
    else match c.phase
      case Watching(_) => c.(phase := Watching(true))
      case Prepared(snapshot, _) => c.(phase := Prepared(snapshot, true))
      case _ => c
  }

  function SpoilAll(callers: map<nat, Caller>, user: string): map<nat, Caller> {
    map id | id in callers :: Spoil(callers[id], user)
  }

  // SET takes a status away from a user that is listed under it.
  predicate Overwrites(s: System, user: string, status: Status) {
    user in s.records && s.records[user].status != status && user in Members(s.index, s.records[user].status)
  }

  function StepCreateSet(s: System, id: nat, user: string, client: Client): System {
    if id in s.adding then s
    else
      var left := if Overwrites(s, user, client.status) then {Entry(user, s.records[user].status)} else {};
      System(
        s.records[user := client],
        s.index,
        s.stale + left - {Entry(user, client.status)},
        s.adding[id := Entry(user, client.status)],
        SpoilAll(s.callers, user),
        s.log + [Created(user, client)])
  }

  // SADD lists a user under a status that it no longer has.
  predicate AddsLate(s: System, e: Entry) {
    e.user in s.records && s.records[e.user].status != e.status
  }

  function StepCreateAdd(s: System, id: nat): System {
    if id !in s.adding then s
    else
      var e := s.adding[id];
      s.(index := SAdd(s.index, e.status, e.user),
         stale := if AddsLate(s, e) then s.stale + {e} else s.stale,
         adding := s.adding - {id})
  }

  function StepCall(s: System, id: nat, user: string, patch: Patch): System {
    if id in s.callers then s
    else s.(callers := s.callers[id := Caller(user, patch, Begin, 0, |s.log|, |s.log|)])
  }

  function StepWatch(s: System, id: nat): System {
    if id in s.callers && s.callers[id].phase == Begin
    then s.(callers := s.callers[id := s.callers[id].(phase := Watching(false), mark := |s.log|)])
    else s
  }

  function StepRead(s: System, id: nat): System {
    if !(id in s.callers && s.callers[id].phase.Watching?) then s
    else
      var c := s.callers[id];
      if c.user in s.records
      then s.(callers := s.callers[id := c.(phase := Prepared(s.records[c.user], c.phase.spoilt))])
      else s.(callers := s.callers[id := c.(phase := Missing)])
  }

  function StepExec(s: System, id: nat): System {
    if !(id in s.callers && s.callers[id].phase.Prepared?) then s
    else
      var c := s.callers[id];
      if c.phase.spoiltSince then
        var n := c.conflicts + 1;
        s.(callers := s.callers[id := c.(conflicts := n, mark := |s.log|,
                                         phase := if n < MAX_RETRIES then BackingOff else Conflicted)])
      else
        System(
          s.records[c.user := Merge(c.phase.snapshot, c.patch)],
          MoveIndex(s.index, c.user, c.phase.snapshot.status, c.patch.status),
          s.stale - {Entry(c.user, c.patch.status.GetOr(c.phase.snapshot.status))},
          s.adding,
          SpoilAll(s.callers, c.user)[id := c.(phase := Succeeded)],
          s.log + [Patched(id, c.user, c.patch)])
  }

  function StepBackoffEnds(s: System, id: nat): System {
    if id in s.callers && s.callers[id].phase == BackingOff
    then s.(callers := s.callers[id := s.callers[id].(phase := Begin)])
    else s
  }

  function Apply(s: System, step: Step): System {
    match step
    case CreateSet(id, user, client) => StepCreateSet(s, id, user, client)
    case CreateAdd(id) => StepCreateAdd(s, id)
    case Call(id, user, patch) => StepCall(s, id, user, patch)
    case Watch(id) => StepWatch(s, id)
    case Read(id) => StepRead(s, id)
    case Exec(id) => StepExec(s, id)
    case BackoffEnds(id) => StepBackoffEnds(s, id)
  }

  function Run(s: System, steps: seq<Step>): System
    decreases |steps|
  {
    if steps == [] then s else Run(Apply(s, steps[0]), steps[1..])
  }

  const EMPTY := System(map[], map[], {}, map[], map[], [])

  // ---------------------------------------------------------------- the serial story

  // The records after performing the logged writes one after the other.
  function Replay(log: seq<Write>): map<string, Client> {
    if log == [] then map[]
    else
      var before := Replay(log[..|log| - 1]);
      match log[|log| - 1]
      case Created(user, client) => before[user := client]
      case Patched(_, user, patch) => if user in before then before[user := Merge(before[user], patch)] else before
  }

  function Field(c: Client, k: string): Option<string> {
    if k in c.fields then Some(c.fields[k]) else None
  }

  // What a user's field was last written to: by the last patch that carries it since the
  // last creation, or by that creation.
  function FieldIn(log: seq<Write>, user: string, k: string): Option<string> {
    if log == [] then None
    else
      match log[|log| - 1]
      case Created(u, client) => if u == user then Field(client, k) else FieldIn(log[..|log| - 1], user, k)
      case Patched(_, u, patch) =>
        if u == user && k in patch.fields then Some(patch.fields[k]) else FieldIn(log[..|log| - 1], user, k)
  }

  function StatusIn(log: seq<Write>, user: string): Option<Status> {
    if log == [] then None
    else
      match log[|log| - 1]
      case Created(u, client) => if u == user then Some(client.status) else StatusIn(log[..|log| - 1], user)
      case Patched(_, u, patch) => if u == user && patch.status.Some? then patch.status else StatusIn(log[..|log| - 1], user)
  }

  // The last write wins, field by field.
  lemma {:induction false} ReplayWrites(log: seq<Write>, user: string, k: string)
    ensures user in Replay(log) ==> Field(Replay(log)[user], k) == FieldIn(log, user, k)
    ensures user in Replay(log) ==> Some(Replay(log)[user].status) == StatusIn(log, user)
  {
    if log != [] {
      ReplayWrites(log[..|log| - 1], user, k);
    }
  }

  // How often a caller's patch was committed.
  function Commits(log: seq<Write>, id: nat): nat {
    if log == [] then 0
    else Commits(log[..|log| - 1], id)
         + (if log[|log| - 1].Patched? && log[|log| - 1].caller == id then 1 else 0)
  }

  // Writes to a key among the first k of the log.
  function WritesTo(log: seq<Write>, user: string, k: nat): nat
    requires k <= |log|
  {
    if k == 0 then 0 else WritesTo(log, user, k - 1) + (if log[k - 1].user == user then 1 else 0)
  }

  ghost predicate Spoilt(c: Caller) {
    (c.phase.Watching? && c.phase.spoilt) || (c.phase.Prepared? && c.phase.spoiltSince)
  }

  ghost predicate CallerOk(records: map<string, Client>, log: seq<Write>, id: nat, c: Caller) {
    && (c.phase.Prepared? && !c.phase.spoiltSince ==> c.user in records && records[c.user] == c.phase.snapshot)
    && Commits(log, id) == (if c.phase == Succeeded then 1 else 0)
    && (c.phase == Conflicted <==> c.conflicts == MAX_RETRIES) && c.conflicts <= MAX_RETRIES
    && c.since <= c.mark <= |log|
    && c.conflicts <= WritesTo(log, c.user, c.mark) - WritesTo(log, c.user, c.since)
    && (c.phase.Watching? || c.phase.Prepared? ==>
          (Spoilt(c) <==> WritesTo(log, c.user, c.mark) < WritesTo(log, c.user, |log|)))
  }

  ghost predicate IndexOk(records: map<string, Client>, index: map<Status, set<string>>) {
    forall st, u :: u in Members(index, st) <==> u in records && records[u].status == st
  }

  // Every entry names the current status of its user or is one that a creation has left.
  // Every user is listed under its status unless a creation is about to do that.
  ghost predicate IndexInv(records: map<string, Client>, index: map<Status, set<string>>, stale: set<Entry>,
                           adding: map<nat, Entry>) {
    && (forall st, u :: u in Members(index, st) ==> (u in records && records[u].status == st) || Entry(u, st) in stale)
    && (forall st, u :: Entry(u, st) in stale ==> u in Members(index, st) && u in records && records[u].status != st)
    && (forall u :: u in records ==> u in Members(index, records[u].status) || Entry(u, records[u].status) in adding.Values)
    && (forall id :: id in adding ==> adding[id].user in records)
  }

  ghost predicate Inv(s: System) {
    && s.records == Replay(s.log)
    && IndexInv(s.records, s.index, s.stale, s.adding)
    && (forall id: nat :: id in s.callers ==> CallerOk(s.records, s.log, id, s.callers[id]))
    && (forall id: nat :: id !in s.callers ==> Commits(s.log, id) == 0)
  }

  // ---------------------------------------------------------------- preservation

  lemma {:induction false} WritesToPrefix(log: seq<Write>, w: Write, user: string, k: nat)
    requires k <= |log|
    ensures WritesTo(log + [w], user, k) == WritesTo(log, user, k)
  {
    if 0 < k {
      WritesToPrefix(log, w, user, k - 1);
    }
  }

  lemma {:induction false} WritesToMonotonic(log: seq<Write>, user: string, j: nat, k: nat)
    requires j <= k <= |log|
    ensures WritesTo(log, user, j) <= WritesTo(log, user, k)
  {
    if j < k {
      WritesToMonotonic(log, user, j, k - 1);
    }
  }

  // What a new write does to a caller who did not make it.
  lemma BystanderStaysOk(records: map<string, Client>, log: seq<Write>, id: nat, c: Caller, w: Write,
                         records': map<string, Client>)
    requires CallerOk(records, log, id, c)
    requires w.Patched? ==> w.caller != id
    requires forall u :: u != w.user && u in records ==> u in records' && records'[u] == records[u]
    ensures CallerOk(records', log + [w], id, Spoil(c, w.user))
  {
    assert (log + [w])[..|log + [w]| - 1] == log;
    WritesToPrefix(log, w, c.user, c.mark);
    WritesToPrefix(log, w, c.user, c.since);
    WritesToPrefix(log, w, c.user, |log|);
    WritesToMonotonic(log, c.user, c.mark, |log|);
  }

  lemma CommitterIsOk(records: map<string, Client>, log: seq<Write>, id: nat, c: Caller)
    requires CallerOk(records, log, id, c) && c.phase.Prepared?
    ensures CallerOk(records, log + [Patched(id, c.user, c.patch)], id, c.(phase := Succeeded))
  {
    var w := Patched(id, c.user, c.patch);
    assert (log + [w])[..|log + [w]| - 1] == log;
    WritesToPrefix(log, w, c.user, c.mark);
    WritesToPrefix(log, w, c.user, c.since);
  }

  lemma MovedIndexIsOk(records: map<string, Client>, index: map<Status, set<string>>, user: string,
                       to: Option<Status>, client: Client)
    requires IndexOk(records, index) && user in records && client.status == to.GetOr(records[user].status)
    ensures IndexOk(records[user := client], MoveIndex(index, user, records[user].status, to))
  {
    forall st, u
      ensures u in Members(MoveIndex(index, user, records[user].status, to), st) <==>
              u in records[user := client] && records[user := client][u].status == st
    {
      assert u in Members(index, st) <==> u in records && records[u].status == st;
    }
  }

  lemma MovedIndexInv(s: System, user: string, to: Option<Status>, client: Client)
    requires IndexInv(s.records, s.index, s.stale, s.adding) && user in s.records
    requires client.status == to.GetOr(s.records[user].status)
    ensures IndexInv(s.records[user := client], MoveIndex(s.index, user, s.records[user].status, to),
                     s.stale - {Entry(user, client.status)}, s.adding)
  {
  }

  lemma SetIndexInv(s: System, id: nat, user: string, client: Client)
    requires IndexInv(s.records, s.index, s.stale, s.adding) && id !in s.adding
    ensures var s' := StepCreateSet(s, id, user, client); IndexInv(s'.records, s'.index, s'.stale, s'.adding)
  {
    var s' := StepCreateSet(s, id, user, client);
    assert s'.adding[id] in s'.adding.Values;
    forall e | e in s.adding.Values ensures e in s'.adding.Values {
      var k :| k in s.adding && s.adding[k] == e;
      assert s'.adding[k] == e;
    }
  }

  lemma AddIndexInv(s: System, id: nat)
    requires IndexInv(s.records, s.index, s.stale, s.adding)
    ensures var s' := StepCreateAdd(s, id); IndexInv(s'.records, s'.index, s'.stale, s'.adding)
  {
    var s' := StepCreateAdd(s, id);
    if id in s.adding {
      forall e | e in s.adding.Values && e != s.adding[id] ensures e in s'.adding.Values {
        var k :| k in s.adding && s.adding[k] == e;
        assert s'.adding[k] == e;
      }
    }
  }

  lemma SetKeepsInv(s: System, id: nat, user: string, client: Client)
    requires Inv(s)
    ensures Inv(StepCreateSet(s, id, user, client))
  {
    if id !in s.adding {
      var w := Created(user, client);
      var s' := StepCreateSet(s, id, user, client);
      assert s'.log[..|s'.log| - 1] == s.log;
      SetIndexInv(s, id, user, client);
      forall caller: nat | caller in s'.callers ensures CallerOk(s'.records, s'.log, caller, s'.callers[caller]) {
        BystanderStaysOk(s.records, s.log, caller, s.callers[caller], w, s'.records);
      }
    }
  }

  lemma CommitKeepsInv(s: System, id: nat)
    requires Inv(s) && id in s.callers && s.callers[id].phase.Prepared? && !s.callers[id].phase.spoiltSince
    ensures Inv(StepExec(s, id))
  {
    var c := s.callers[id];
    var w := Patched(id, c.user, c.patch);
    var s' := StepExec(s, id);
    assert CallerOk(s.records, s.log, id, c);
    MovedIndexInv(s, c.user, c.patch.status, Merge(c.phase.snapshot, c.patch));
    CommitterIsOk(s.records, s.log, id, c);
    assert s'.log[..|s'.log| - 1] == s.log;
    forall other: nat | other in s'.callers ensures CallerOk(s'.records, s'.log, other, s'.callers[other]) {
      if other != id {
        BystanderStaysOk(s.records, s.log, other, s.callers[other], w, s'.records);
      }
    }
  }

  // A step in which one caller moves on and nothing is written.
  lemma CallerMovesOn(s: System, id: nat, c: Caller)
    requires Inv(s) && CallerOk(s.records, s.log, id, c)
    ensures Inv(s.(callers := s.callers[id := c]))
  {
  }

  lemma ConflictKeepsInv(s: System, id: nat)
    requires Inv(s) && id in s.callers && s.callers[id].phase.Prepared? && s.callers[id].phase.spoiltSince
    ensures Inv(StepExec(s, id))
  {
    assert CallerOk(s.records, s.log, id, s.callers[id]);
    CallerMovesOn(s, id, StepExec(s, id).callers[id]);
  }

  lemma CallKeepsInv(s: System, id: nat, user: string, patch: Patch)
    requires Inv(s)
    ensures Inv(StepCall(s, id, user, patch))
  {
    if id !in s.callers {
      CallerMovesOn(s, id, StepCall(s, id, user, patch).callers[id]);
    }
  }

  lemma WatchKeepsInv(s: System, id: nat)
    requires Inv(s)
    ensures Inv(StepWatch(s, id))
  {
    if id in s.callers && s.callers[id].phase == Begin {
      assert CallerOk(s.records, s.log, id, s.callers[id]);
      WritesToMonotonic(s.log, s.callers[id].user, s.callers[id].mark, |s.log|);
      CallerMovesOn(s, id, StepWatch(s, id).callers[id]);
    }
  }

  lemma ReadKeepsInv(s: System, id: nat)
    requires Inv(s)
    ensures Inv(StepRead(s, id)) && Inv(StepBackoffEnds(s, id))
  {
    if id in s.callers {
      assert CallerOk(s.records, s.log, id, s.callers[id]);
      if s.callers[id].phase.Watching? {
        CallerMovesOn(s, id, StepRead(s, id).callers[id]);
      } else if s.callers[id].phase == BackingOff {
        CallerMovesOn(s, id, StepBackoffEnds(s, id).callers[id]);
      }
    }
  }

  lemma ApplyKeepsInv(s: System, step: Step)
    requires Inv(s)
    ensures Inv(Apply(s, step))
  {
    match step
    case CreateSet(id, user, client) => SetKeepsInv(s, id, user, client);
    case CreateAdd(id) => AddIndexInv(s, id);
    case Exec(id) =>
      if id in s.callers && s.callers[id].phase.Prepared? {
        if s.callers[id].phase.spoiltSince {
          ConflictKeepsInv(s, id);
        } else {
          CommitKeepsInv(s, id);
        }
      }
    case Call(id, user, patch) => CallKeepsInv(s, id, user, patch);
    case Watch(id) => WatchKeepsInv(s, id);
    case Read(id) => ReadKeepsInv(s, id);
    case BackoffEnds(id) => ReadKeepsInv(s, id);
  }

  lemma {:induction false} RunKeepsInv(s: System, steps: seq<Step>)
    requires Inv(s)
    ensures Inv(Run(s, steps))
    decreases |steps|
  {
    if steps != [] {
      ApplyKeepsInv(s, steps[0]);
      RunKeepsInv(Apply(s, steps[0]), steps[1..]);
    }
  }

  // Serializability, over every interleaving of any number of callers: the records are
  // the committed writes replayed in commit order, so that in each field the last write
  // wins; a caller reports success exactly when its patch was committed, and then once;
  // giving up takes five writes to the same client during the call, and leaves no trace;
  // the status index lists every client under its current status unless a creation is about
  // to do that, and what it lists beyond that was left behind by a creation.
  lemma EveryRunIsSerial(steps: seq<Step>)
    ensures var s := Run(EMPTY, steps);
            && s.records == Replay(s.log)
            && (forall u, k :: u in s.records ==> Field(s.records[u], k) == FieldIn(s.log, u, k))
            && (forall u :: u in s.records ==> Some(s.records[u].status) == StatusIn(s.log, u))
            && (forall id: nat :: id in s.callers ==>
                  && (s.callers[id].phase == Succeeded ==> Commits(s.log, id) == 1)
                  && (s.callers[id].phase != Succeeded ==> Commits(s.log, id) == 0)
                  && s.callers[id].since <= |s.log|
                  && (s.callers[id].phase == Conflicted ==>
                        WritesTo(s.log, s.callers[id].user, |s.log|)
                        >= WritesTo(s.log, s.callers[id].user, s.callers[id].since) + MAX_RETRIES))
            && (forall u :: u in s.records ==>
                  u in Members(s.index, s.records[u].status) || Entry(u, s.records[u].status) in s.adding.Values)
            && (forall st, u :: u in Members(s.index, st) && !(u in s.records && s.records[u].status == st) <==>
                  Entry(u, st) in s.stale)
  {
    RunKeepsInv(EMPTY, steps);
    var s := Run(EMPTY, steps);
    forall u, k ensures u in s.records ==> Field(s.records[u], k) == FieldIn(s.log, u, k) {
      ReplayWrites(s.log, u, k);
    }
    forall u ensures u in s.records ==> Some(s.records[u].status) == StatusIn(s.log, u) {
      ReplayWrites(s.log, u, "");
    }
    forall id: nat | id in s.callers
      ensures CallerOk(s.records, s.log, id, s.callers[id])
      ensures WritesTo(s.log, s.callers[id].user, s.callers[id].mark) <= WritesTo(s.log, s.callers[id].user, |s.log|)
    {
      assert CallerOk(s.records, s.log, id, s.callers[id]);
      WritesToMonotonic(s.log, s.callers[id].user, s.callers[id].mark, |s.log|);
    }
  }

  // ---------------------------------------------------------------- what becomes of a call

  // An EXEC goes through if and only if nobody has written to the client since the WATCH.
  // Otherwise nothing is written, and the fifth time the call gives up.
  lemma ExecDecidesExactly(s: System, id: nat)
    requires Inv(s) && id in s.callers && s.callers[id].phase.Prepared?
    ensures var c, s' := s.callers[id], StepExec(s, id);
            && c.mark <= |s.log| && id in s'.callers
            && if WritesTo(s.log, c.user, c.mark) == WritesTo(s.log, c.user, |s.log|) then
                 s'.callers[id].phase == Succeeded && s'.log == s.log + [Patched(id, c.user, c.patch)]
               else
                 && s'.records == s.records && s'.index == s.index && s'.log == s.log
                 && s'.callers[id].conflicts == c.conflicts + 1
                 && s'.callers[id].phase == (if c.conflicts + 1 < 5 then BackingOff else Conflicted)
  {
    assert CallerOk(s.records, s.log, id, s.callers[id]);
    WritesToMonotonic(s.log, s.callers[id].user, s.callers[id].mark, |s.log|);
  }

  // The next step of the caller itself.
  function OwnStep(id: nat, phase: Phase): Option<Step> {
    match phase
    case Begin => Some(Watch(id))
    case Watching(_) => Some(Read(id))
    case Prepared(_, _) => Some(Exec(id))
    case BackingOff => Some(BackoffEnds(id))
    case _ => None
  }

  // A bound on the steps that a call has left.
  function CallRank(c: Caller): int {
    match c.phase
    case Begin => 5 * (5 - c.conflicts) + 3
    case Watching(_) => 5 * (5 - c.conflicts) + 2
    case Prepared(_, _) => 5 * (5 - c.conflicts) + 1
    case BackingOff => 5 * (5 - c.conflicts) + 4
    case _ => 0
  }

  // Every call ends: its own steps lower the rank, and nobody else's step raises it.
  lemma OwnStepsLowerRank(s: System, id: nat)
    requires id in s.callers && OwnStep(id, s.callers[id].phase).Some? && s.callers[id].conflicts < 5
    ensures var s' := Apply(s, OwnStep(id, s.callers[id].phase).value);
            id in s'.callers && 0 <= CallRank(s'.callers[id]) < CallRank(s.callers[id])
  {
  }

  lemma NoStepRaisesRank(s: System, id: nat, step: Step)
    requires id in s.callers && s.callers[id].conflicts <= 5
    ensures id in Apply(s, step).callers && CallRank(Apply(s, step).callers[id]) <= CallRank(s.callers[id])
  {
  }

  lemma EndsAtRankZero(s: System, id: nat)
    requires Inv(s) && id in s.callers
    ensures 0 <= CallRank(s.callers[id])
    ensures CallRank(s.callers[id]) == 0 <==> s.callers[id].phase in {Succeeded, Conflicted, Missing}
    ensures OwnStep(id, s.callers[id].phase) == None <==> CallRank(s.callers[id]) == 0
  {
    assert CallerOk(s.records, s.log, id, s.callers[id]);
  }

  // A call for a client that does not exist says so.
  lemma MissingClientIsReported(s: System, id: nat)
    requires id in s.callers && s.callers[id].phase.Watching? && s.callers[id].user !in s.records
    ensures StepRead(s, id).callers[id].phase == Missing && StepRead(s, id).records == s.records
  {
  }

  // ---------------------------------------------------------------- when the index is right

  // Nobody is listed under a status that it does not have.
  ghost predicate Sound(s: System) {
    forall st, u :: u in Members(s.index, st) ==> u in s.records && s.records[u].status == st
  }

  // The guards of the two writes, in the state before each.
  predicate LeavesEntry(s: System, step: Step) {
    match step
    case CreateSet(id, user, client) => id !in s.adding && Overwrites(s, user, client.status)
    case CreateAdd(id) => id in s.adding && AddsLate(s, s.adding[id])
    case _ => false
  }

  lemma SoundIsNoneStale(s: System)
    requires Inv(s)
    ensures Sound(s) <==> s.stale == {}
  {
    if s.stale != {} {
      var e :| e in s.stale;
      assert Entry(e.user, e.status) in s.stale;
      assert e.user in Members(s.index, e.status);
    }
  }

  // A step makes the index list somebody under a wrong status if and only if it is a SET
  // over a listed other status, or a SADD that comes after the status has changed.
  lemma StepKeepsSoundExactly(s: System, step: Step)
    requires Inv(s) && Sound(s)
    ensures Sound(Apply(s, step)) <==> !LeavesEntry(s, step)
  {
    ApplyKeepsInv(s, step);
    SoundIsNoneStale(s);
    SoundIsNoneStale(Apply(s, step));
    match step
    case CreateSet(id, user, client) =>
      if LeavesEntry(s, step) {
        assert Entry(user, s.records[user].status) in Apply(s, step).stale;
      }
    case CreateAdd(id) =>
      if LeavesEntry(s, step) {
        assert s.adding[id] in Apply(s, step).stale;
      }
    case _ =>
  }

  ghost predicate LeavesNone(s: System, steps: seq<Step>)
    decreases |steps|
  {
    steps != [] ==> !LeavesEntry(s, steps[0]) && LeavesNone(Apply(s, steps[0]), steps[1..])
  }

  ghost predicate SoundThroughout(s: System, steps: seq<Step>)
    decreases |steps|
  {
    Sound(s) && (steps != [] ==> SoundThroughout(Apply(s, steps[0]), steps[1..]))
  }

  // Over whole runs: nobody is ever listed wrongly if and only if no write leaves an entry
  // behind. Whenever then no creation is between its writes, the index is exact.
  lemma {:induction false} IndexIsRightExactly(s: System, steps: seq<Step>)
    requires Inv(s) && Sound(s)
    ensures SoundThroughout(s, steps) <==> LeavesNone(s, steps)
    ensures LeavesNone(s, steps) && Run(s, steps).adding == map[] ==>
              IndexOk(Run(s, steps).records, Run(s, steps).index)
    decreases |steps|
  {
    if steps != [] {
      StepKeepsSoundExactly(s, steps[0]);
      ApplyKeepsInv(s, steps[0]);
      if Sound(Apply(s, steps[0])) {
        IndexIsRightExactly(Apply(s, steps[0]), steps[1..]);
      }
    }
  }

  lemma CreationWrites(s: System, id: nat, user: string, client: Client)
    requires id !in s.adding
    ensures var s' := StepCreateAdd(StepCreateSet(s, id, user, client), id);
            && s'.records == s.records[user := client] && s'.adding == s.adding
            && user in Members(s'.index, client.status)
  {
  }

  // A creation that nothing comes between keeps the index exact if and only if the client is
  // new or is overwritten with the status that it has.
  lemma CreationKeepsIndexExactly(s: System, id: nat, user: string, client: Client)
    requires Inv(s) && IndexOk(s.records, s.index) && id !in s.adding
    ensures var s' := StepCreateAdd(StepCreateSet(s, id, user, client), id);
            IndexOk(s'.records, s'.index) <==> user !in s.records || s.records[user].status == client.status
  {
    var s1 := StepCreateSet(s, id, user, client);
    var s' := StepCreateAdd(s1, id);
    forall st, u ensures u in Members(s'.index, st) <==> u in Members(s.index, st) || (u == user && st == client.status) {
    }
    if user in s.records {
      assert user in Members(s.index, s.records[user].status);
    }
    if user !in s.records || s.records[user].status == client.status {
      forall st, u ensures u in Members(s'.index, st) <==> u in s'.records && s'.records[u].status == st {
        assert u in Members(s.index, st) <==> u in s.records && s.records[u].status == st;
      }
    } else {
      assert user in Members(s'.index, s.records[user].status);
    }
  }

  // One creation of this user is between its writes, and nothing is left of earlier ones.
  ghost predicate BetweenWrites(s: System, id: nat, e: Entry) {
    && id in s.adding && s.adding[id] == e
    && (forall k :: k in s.adding && s.adding[k].user == e.user ==> k == id)
    && (forall st :: Entry(e.user, st) !in s.stale)
  }

  lemma SetStartsCreation(s: System, id: nat, user: string, client: Client)
    requires Inv(s) && Sound(s) && id !in s.adding && forall k :: k in s.adding ==> s.adding[k].user != user
    ensures BetweenWrites(StepCreateSet(s, id, user, client), id, Entry(user, client.status))
            <==> !Overwrites(s, user, client.status)
  {
    SoundIsNoneStale(s);
    if Overwrites(s, user, client.status) {
      assert Entry(user, s.records[user].status) in StepCreateSet(s, id, user, client).stale;
    }
  }

  // Anything but another creation of the user, or the second write itself.
  ghost predicate LeaveCreation(steps: seq<Step>, id: nat, user: string) {
    forall i :: 0 <= i < |steps| ==> steps[i] != CreateAdd(id) && (steps[i].CreateSet? ==> steps[i].user != user)
  }

  lemma StepStaysBetweenWrites(s: System, id: nat, e: Entry, step: Step)
    requires BetweenWrites(s, id, e) && LeaveCreation([step], id, e.user)
    ensures BetweenWrites(Apply(s, step), id, e)
  {
    assert [step][0] == step;
  }

  lemma {:induction false} StaysBetweenWrites(s: System, id: nat, e: Entry, steps: seq<Step>)
    requires Inv(s) && BetweenWrites(s, id, e) && LeaveCreation(steps, id, e.user)
    ensures Inv(Run(s, steps)) && BetweenWrites(Run(s, steps), id, e)
    decreases |steps|
  {
    if steps != [] {
      ApplyKeepsInv(s, steps[0]);
      StepStaysBetweenWrites(s, id, e, steps[0]);
      assert forall i :: 0 <= i < |steps[1..]| ==> steps[1..][i] == steps[i + 1];
      StaysBetweenWrites(Apply(s, steps[0]), id, e, steps[1..]);
    }
  }

  // The user is listed under its status and nowhere else.
  ghost predicate ListedRight(s: System, user: string) {
    forall st :: user in Members(s.index, st) <==> user in s.records && s.records[user].status == st
  }

  // Whatever happens between the two writes of a creation, the user comes out listed right
  // if and only if it then still has, or has again, the status that it was created with.
  lemma CreationEndsRightExactly(s: System, id: nat, e: Entry, steps: seq<Step>)
    requires Inv(s) && BetweenWrites(s, id, e) && LeaveCreation(steps, id, e.user)
    ensures var end := Run(s, steps);
            && e.user in end.records
            && (ListedRight(StepCreateAdd(end, id), e.user) <==> end.records[e.user].status == e.status)
  {
    StaysBetweenWrites(s, id, e, steps);
    var end := Run(s, steps);
    var last := StepCreateAdd(end, id);
    AddIndexInv(end, id);
    assert e.user in Members(last.index, e.status);
    if end.records[e.user].status == e.status {
      forall st ensures e.user in Members(last.index, st) <==> e.user in last.records && last.records[e.user].status == st {
        assert Entry(e.user, st) !in last.stale;
      }
    }
  }

  // ---------------------------------------------------------------- two logins

  lemma RunOne(s: System, step: Step, rest: seq<Step>)
    ensures Run(s, [step] + rest) == Run(Apply(s, step), rest)
  {
    assert ([step] + rest)[1..] == rest;
  }

  lemma {:induction false} RunAppend(s: System, a: seq<Step>, b: seq<Step>)
    ensures Run(s, a + b) == Run(Run(s, a), b)
    decreases |a|
  {
    if a == [] {
      assert a + b == b;
    } else {
      assert (a + b)[0] == a[0] && (a + b)[1..] == a[1..] + b;
      RunAppend(Apply(s, a[0]), a[1..], b);
    }
  }

  // What a login does to make a user active, undisturbed.
  function Activation(user: string): seq<Step> {
    [Call(0, user, Patch(Some(Active), map[]))] + ([Watch(0)] + ([Read(0)] + ([Exec(0)] + [])))
  }

  lemma ActivationRuns(s: System, user: string)
    ensures Run(s, Activation(user)) ==
            StepExec(StepRead(StepWatch(StepCall(s, 0, user, Patch(Some(Active), map[])), 0), 0), 0)
  {
    var call := Call(0, user, Patch(Some(Active), map[]));
    var s1 := Apply(s, call);
    var s2 := Apply(s1, Watch(0));
    var s3 := Apply(s2, Read(0));
    RunOne(s, call, [Watch(0)] + ([Read(0)] + ([Exec(0)] + [])));
    RunOne(s1, Watch(0), [Read(0)] + ([Exec(0)] + []));
    RunOne(s2, Read(0), [Exec(0)] + []);
    RunOne(s3, Exec(0), []);
  }

  lemma ActivationActivates(s: System, user: string)
    requires user in s.records && s.records[user].status == Inactive && 0 !in s.callers
    ensures var s' := Run(s, Activation(user));
            && s'.records == s.records[user := s.records[user].(status := Active)]
            && s'.index == SAdd(SRem(s.index, Inactive, user), Active, user)
            && s'.adding == s.adding
  {
    ActivationRuns(s, user);
    var s2 := StepWatch(StepCall(s, 0, user, Patch(Some(Active), map[])), 0);
    assert s2.callers[0].phase == Watching(false);
    var s3 := StepRead(s2, 0);
    assert s3.callers[0].phase == Prepared(s.records[user], false);
    assert s.records[user].fields + map[] == s.records[user].fields;
  }

  // The second login finds the record that the first one has just set, and activates the
  // user before the first one comes to its SADD. The user is active and listed as both.
  lemma LoginBetweenWritesLeavesEntry(user: string, client: Client)
    requires client.status == Inactive
    ensures var s := Run(EMPTY, [CreateSet(0, user, client)] + (Activation(user) + [CreateAdd(0)]));
            && user in s.records && s.records[user].status == Active
            && user in Members(s.index, Active) && user in Members(s.index, Inactive)
  {
    var s1 := StepCreateSet(EMPTY, 0, user, client);
    RunOne(EMPTY, CreateSet(0, user, client), Activation(user) + [CreateAdd(0)]);
    RunAppend(s1, Activation(user), [CreateAdd(0)]);
    ActivationActivates(s1, user);
    RunOne(Run(s1, Activation(user)), CreateAdd(0), []);
    assert [CreateAdd(0)] + [] == [CreateAdd(0)];
  }

  lemma OneCreation(s: System, id: nat, user: string, client: Client, rest: seq<Step>)
    ensures Run(s, [CreateSet(id, user, client)] + ([CreateAdd(id)] + rest)) ==
            Run(StepCreateAdd(StepCreateSet(s, id, user, client), id), rest)
  {
    RunOne(s, CreateSet(id, user, client), [CreateAdd(id)] + rest);
    RunOne(StepCreateSet(s, id, user, client), CreateAdd(id), rest);
  }

  // Both logins look before either creates. The user ends up inactive and listed as both.
  lemma TwoCreationsLeaveEntry(user: string, client: Client)
    requires client.status == Inactive
    ensures var second := [CreateSet(1, user, client)] + ([CreateAdd(1)] + []);
            var s := Run(EMPTY, [CreateSet(0, user, client)] + ([CreateAdd(0)] + (Activation(user) + second)));
            && user in s.records && s.records[user].status == Inactive
            && user in Members(s.index, Active) && user in Members(s.index, Inactive)
  {
    var second := [CreateSet(1, user, client)] + ([CreateAdd(1)] + []);
    var created := StepCreateAdd(StepCreateSet(EMPTY, 0, user, client), 0);
    OneCreation(EMPTY, 0, user, client, Activation(user) + second);
    RunAppend(created, Activation(user), second);
    ActivationActivates(created, user);
    OneCreation(Run(created, Activation(user)), 1, user, client, []);
  }

  // ---------------------------------------------------------------- the method itself

  // Committed updates of other callers, in commit order.
  function Perform(records: map<string, Client>, updates: seq<(string, Patch)>): map<string, Client> {
    if updates == [] then records
    else
      var before := Perform(records, updates[..|updates| - 1]);
      var (user, patch) := updates[|updates| - 1];
      if user in before then before[user := Merge(before[user], patch)] else before
  }

  // The value of a field after some updates, given the one before.
  function LastField(updates: seq<(string, Patch)>, user: string, k: string, before: Option<string>): Option<string> {
    if updates == [] then before
    else
      var (u, patch) := updates[|updates| - 1];
      if u == user && k in patch.fields then Some(patch.fields[k])
      else LastField(updates[..|updates| - 1], user, k, before)
  }

  function LastStatus(updates: seq<(string, Patch)>, user: string, before: Status): Status {
    if updates == [] then before
    else
      var (u, patch) := updates[|updates| - 1];
      if u == user && patch.status.Some? then patch.status.value else LastStatus(updates[..|updates| - 1], user, before)
  }

  lemma {:induction false} PerformWrites(records: map<string, Client>, updates: seq<(string, Patch)>, user: string, k: string)
    requires user in records
    ensures user in Perform(records, updates)
    ensures Field(Perform(records, updates)[user], k) == LastField(updates, user, k, Field(records[user], k))
    ensures Perform(records, updates)[user].status == LastStatus(updates, user, records[user].status)
  {
    if updates != [] {
      var init, last := updates[..|updates| - 1], updates[|updates| - 1];
      PerformWrites(records, init, user, k);
      var before := Perform(records, init);
      if last.0 == user {
        assert Perform(records, updates)[user] == Merge(before[user], last.1);
      } else {
        assert Perform(records, updates)[user] == before[user];
      }
    }
  }

  // A record after a patch: the fields and the status of the patch, and for the rest what
  // the updates before it had left.
  ghost predicate PatchWins(was: Client, updates: seq<(string, Patch)>, user: string, patch: Patch, now: Client) {
    && (forall k :: Field(now, k) ==
          if k in patch.fields then Some(patch.fields[k]) else LastField(updates, user, k, Field(was, k)))
    && now.status == if patch.status.Some? then patch.status.value else LastStatus(updates, user, was.status)
  }

  lemma PatchedLast(records: map<string, Client>, updates: seq<(string, Patch)>, user: string, patch: Patch)
    requires user in records
    ensures var before, after := Perform(records, updates), Perform(records, updates + [(user, patch)]);
            && user in before && after == before[user := Merge(before[user], patch)]
            && PatchWins(records[user], updates, user, patch, after[user])
  {
    var all := updates + [(user, patch)];
    assert all[..|updates|] == updates;
    PerformWrites(records, updates, user, "");
    PerformWrites(records, all, user, "");
    forall k
      ensures Field(Perform(records, all)[user], k) ==
              if k in patch.fields then Some(patch.fields[k]) else LastField(updates, user, k, Field(records[user], k))
    {
      PerformWrites(records, all, user, k);
    }
  }

  function Flatten(rounds: seq<seq<(string, Patch)>>): seq<(string, Patch)> {
    if rounds == [] then [] else Flatten(rounds[..|rounds| - 1]) + rounds[|rounds| - 1]
  }

  predicate Touches(updates: seq<(string, Patch)>, user: string) {
    exists i :: 0 <= i < |updates| && updates[i].0 == user
  }

  lemma {:induction false} PerformAppend(records: map<string, Client>, a: seq<(string, Patch)>, b: seq<(string, Patch)>)
    ensures Perform(records, a + b) == Perform(Perform(records, a), b)
  {
    if b == [] {
      assert a + b == a;
    } else {
      assert (a + b)[..|a + b| - 1] == a + b[..|b| - 1];
      PerformAppend(records, a, b[..|b| - 1]);
    }
  }

  lemma {:induction false} UntouchedStays(records: map<string, Client>, updates: seq<(string, Patch)>, user: string)
    ensures user in Perform(records, updates) <==> user in records
    ensures !Touches(updates, user) && user in records ==> Perform(records, updates)[user] == records[user]
  {
    if updates != [] {
      var init := updates[..|updates| - 1];
      UntouchedStays(records, init, user);
      if !Touches(updates, user) {
        assert forall i :: 0 <= i < |init| ==> init[i] == updates[i];
        assert updates[|updates| - 1].0 != user;
      }
    }
  }

  datatype UpdateResult = Updated | NotFound | UpdateFailed

  class Database {
    var clients: map<string, Client>
    var statusIndex: map<Status, set<string>>

    constructor ()
      ensures clients == map[] && statusIndex == map[]
    {
      clients, statusIndex := map[], map[];
    }

    // An EXEC that goes through, built from what the transaction's caller had read.
    method Exec(user: string, read: Client, patch: Patch)
      requires user in clients && clients[user] == read
      modifies this
      ensures clients == old(clients)[user := Merge(read, patch)]
      ensures PatchWins(read, [], user, patch, clients[user])
      ensures statusIndex == MoveIndex(old(statusIndex), user, read.status, patch.status)
      ensures IndexOk(old(clients), old(statusIndex)) ==> IndexOk(clients, statusIndex)
    {
      if IndexOk(clients, statusIndex) {
        MovedIndexIsOk(clients, statusIndex, user, patch.status, Merge(read, patch));
      }
      clients := clients[user := Merge(read, patch)];
      if patch.status.Some? && patch.status.value != read.status {
        statusIndex := SRem(statusIndex, read.status, user);
        statusIndex := SAdd(statusIndex, patch.status.value, user);
      }
    }

    // What other callers commit while this one waits.
    method OthersCommit(updates: seq<(string, Patch)>)
      modifies this
      ensures clients == Perform(old(clients), updates)
      ensures IndexOk(old(clients), old(statusIndex)) ==> IndexOk(clients, statusIndex)
    {
      var i := 0;
      while i < |updates|
        invariant 0 <= i <= |updates|
        invariant clients == Perform(old(clients), updates[..i])
        invariant IndexOk(old(clients), old(statusIndex)) ==> IndexOk(clients, statusIndex)
      {
        var (user, patch) := updates[i];
        assert updates[..i + 1][..|updates[..i + 1]| - 1] == updates[..i];
        if user in clients {
          Exec(user, clients[user], patch);
        }
        i := i + 1;
      }
      assert updates[..|updates|] == updates;
    }

    // others[k] is committed between the k-th WATCH and the k-th EXEC. The call succeeds in
    // the first round in which nobody touched the client, on top of everything committed
    // so far; after five touched rounds it fails and has changed nothing.
    method UpdateClient(user: string, patch: Patch, others: seq<seq<(string, Patch)>>)
      returns (r: UpdateResult, ghost rounds: nat)
      requires |others| == 5
      modifies this
      ensures rounds <= 5
      ensures IndexOk(old(clients), old(statusIndex)) ==> IndexOk(clients, statusIndex)
      ensures r == NotFound <==> user !in old(clients)
      ensures r == NotFound ==> clients == old(clients)
      ensures r == UpdateFailed <==> user in old(clients) && forall k :: 0 <= k < 5 ==> Touches(others[k], user)
      ensures r == UpdateFailed ==> clients == Perform(old(clients), Flatten(others))
      ensures r == Updated ==>
                && 0 < rounds
                && (forall k :: 0 <= k < rounds - 1 ==> Touches(others[k], user))
                && !Touches(others[rounds - 1], user)
                && clients == Perform(old(clients), Flatten(others[..rounds]) + [(user, patch)])
                // the patch wins over what was there, and leaves everything else
                && user in clients
                && PatchWins(old(clients)[user], Flatten(others[..rounds]), user, patch, clients[user])
    {
      rounds := 0;
      var retryCount := 0;
      while retryCount < MAX_RETRIES
        invariant 0 <= retryCount <= MAX_RETRIES && rounds == retryCount
        invariant clients == Perform(old(clients), Flatten(others[..retryCount]))
        invariant IndexOk(old(clients), old(statusIndex)) ==> IndexOk(clients, statusIndex)
        invariant user in clients <==> user in old(clients)
        invariant 0 < retryCount ==> user in clients
        invariant forall k :: 0 <= k < retryCount ==> Touches(others[k], user)
      {
        if user !in clients {
          return NotFound, rounds;
        }
        var read := clients[user];
        ghost var before := clients;
        OthersCommit(others[retryCount]);
        UntouchedStays(before, others[retryCount], user);
        assert others[..retryCount + 1][..retryCount] == others[..retryCount];
        PerformAppend(old(clients), Flatten(others[..retryCount]), others[retryCount]);
        rounds := rounds + 1;
        if Touches(others[retryCount], user) {
          retryCount := retryCount + 1;
        } else {
          ghost var done := Flatten(others[..rounds]);
          PatchedLast(old(clients), done, user, patch);
          Exec(user, read, patch);
          return Updated, rounds;
        }
      }
      assert others[..MAX_RETRIES] == others;
      return UpdateFailed, rounds;
    }
  }
}
