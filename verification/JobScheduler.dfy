/** The persistent job scheduler (job/scheduler.go, job/server.go).

    The job store keeps, with each job, the cron entry id under which it was last started; the cron
    server keeps the live entries. `Scheduler` changes both step by step. The store and the cron
    server may refuse any call: what they answer is an argument of every operation (`StopFaults`,
    `StartFaults`, `ReloadFaults`). A store update that is reported as failed may have been made all the
    same. Cron ids are handed out in
    ascending order by one cron server, while stored ids survive a restart: `Fresh` says that the
    stored ids do not run ahead of the server. */
module JobScheduler {
  import opened Common

  type JobId = int
  type EntryId = int

  const MAX_INT32: int := 0x7fff_ffff

  /** Go's conversion of an int to int32. */
  function ToInt32(x: int): (r: int)
    ensures -MAX_INT32 - 1 <= r <= MAX_INT32 && (r - x) % 0x1_0000_0000 == 0
  {
    var low := x % 0x1_0000_0000;
    if low > MAX_INT32 then low - 0x1_0000_0000 else low
  }

  datatype JobRecord = JobRecord(id: JobId, enabled: bool, entryId: int)

  /** Where the two sides stand: the stored records and the live entries with the job each one runs,
      the last id the cron server handed out, and whether the scheduler has an execution context. */
  datatype State = State(store: map<JobId, JobRecord>, live: map<EntryId, JobId>, lastEntry: nat, running: bool)

  // ----- the operations on the two sides -----

  function SetEntry(s: State, job: JobId, entry: int): State {
    if job in s.store then s.(store := s.store[job := s.store[job].(entryId := entry)]) else s
  }

  function Register(s: State, job: JobId): State {
    s.(lastEntry := s.lastEntry + 1, live := s.live[s.lastEntry + 1 := job])
  }

  function Unregister(s: State, entry: EntryId): State { s.(live := s.live - {entry}) }

  /** What the store and the cron server answer to one call each; a job that is not stored is not found. An update that
      fails may be `committed`: the store has made it and still reports an error. */
  datatype StopFaults = StopFaults(find: bool, update: bool, committed: bool) {
    predicate Any() { find || update }
  }

  datatype StartFaults = StartFaults(lookup: bool, args: bool, find: bool, register: bool, update: bool,
                                     committed: bool) {
    predicate Any() { lookup || args || find || register || update }
  }

  const NO_STOP_FAULTS := StopFaults(false, false, false)
  const NO_START_FAULTS := StartFaults(false, false, false, false, false, false)

  /** The entry a stop or restart removes: the stored one, else the one the caller knows of. */
  function KnownEntry(s: State, job: JobRecord): int
    requires job.id in s.store
  {
    if s.store[job.id].entryId > 0 then s.store[job.id].entryId else job.entryId
  }

  predicate StopSucceeds(s: State, job: JobRecord, f: StopFaults) { job.id in s.store && !f.find && !f.update }

  /** The store has dropped the entry id and reports that it has not. */
  predicate StopLost(s: State, job: JobRecord, f: StopFaults) {
    job.id in s.store && !f.find && f.update && f.committed
  }

  function Stop(s: State, job: JobRecord, f: StopFaults): State {
    if StopLost(s, job, f) then SetEntry(s, job.id, 0)
    else if !StopSucceeds(s, job, f) then s
    else
      var stopped := SetEntry(s, job.id, 0);
      if KnownEntry(s, job) > 0 then Unregister(stopped, KnownEntry(s, job)) else stopped
  }

  predicate Starts(s: State, job: JobRecord, f: StartFaults) {
    job.id in s.store && !f.lookup && !f.args && !f.find && !f.register && !f.update
  }

  /** The store has taken the new entry id and reports that it has not. */
  predicate StartLost(s: State, job: JobRecord, f: StartFaults) {
    job.id in s.store && !f.lookup && !f.args && !f.find && !f.register && f.update && f.committed
  }

  function Start(s: State, job: JobRecord, f: StartFaults): State {
    if job.id !in s.store || f.lookup || f.args || f.find || f.register then s
    else
      var registered := Register(s, job.id);
      var entry := registered.lastEntry;
      if f.update then
        Unregister(if f.committed then SetEntry(registered, job.id, ToInt32(entry)) else registered, entry)
      else
        var stored := SetEntry(registered, job.id, ToInt32(entry));
        var before := KnownEntry(s, job);
        if before > 0 && before != ToInt32(entry) then Unregister(stored, before) else stored
  }

  datatype ReloadFaults = ReloadFaults(list: bool, stop: nat -> StopFaults, start: nat -> StartFaults,
                                       rollback: nat -> StopFaults)

  /** Stops the jobs in `started` from the last to the first, up to the first refusal. */
  function Rollback(s: State, started: seq<JobRecord>, f: nat -> StopFaults): State
    decreases |started|
  {
    if started == [] then s
    else
      var last := |started| - 1;
      var t := Stop(s, started[last], f(last));
      if StopSucceeds(s, started[last], f(last)) then Rollback(t, started[..last], f) else t
  }

  datatype Reloaded = Reloaded(state: State, ok: bool)

  /** The reload of `list` from position `i` on, after `started` have been started. */
  function ReloadFrom(s: State, list: seq<JobRecord>, i: nat, started: seq<JobRecord>, f: ReloadFaults): Reloaded
    requires i <= |list|
    decreases |list| - i
  {
    if i == |list| then Reloaded(s, true)
    else
      var job := list[i];
      var stopped := Stop(s, job, f.stop(i));
      if !StopSucceeds(s, job, f.stop(i)) then Reloaded(stopped, false)
      else
        var item := job.(entryId := 0);
        if !job.enabled then ReloadFrom(stopped, list, i + 1, started, f)
        else if Starts(stopped, item, f.start(i)) then
          var next := Start(stopped, item, f.start(i));
          ReloadFrom(next, list, i + 1, started + [item.(entryId := ToInt32(next.lastEntry))], f)
        else Reloaded(Rollback(Start(stopped, item, f.start(i)), started, f.rollback), false)
  }

  /** The store lists every record, in some order. */
  ghost predicate Lists(s: State, list: seq<JobRecord>) {
    && (forall k :: 0 <= k < |list| ==> list[k].id in s.store && s.store[list[k].id] == list[k])
    && (forall j, k :: 0 <= j < k < |list| ==> list[j].id != list[k].id)
    && (forall id :: id in s.store ==> exists k :: 0 <= k < |list| && list[k].id == id)
  }

  // ----- the program -----

  class Scheduler {
    var store: map<JobId, JobRecord>
    var live: map<EntryId, JobId>
    var lastEntry: nat
    var running: bool

    function View(): State
      reads this
    {
      State(store, live, lastEntry, running)
    }

    // The job store and the cron server, as far as the scheduler calls them.

    method UpdateEntryId(job: JobId, entry: int, fails: bool, committed: bool) returns (ok: bool)
      modifies this
      ensures ok <==> !fails
      ensures View() == if fails && !committed then old(View()) else SetEntry(old(View()), job, entry)
    {
      if fails && !committed {
        return false;
      }
      if job in store {
        store := store[job := store[job].(entryId := entry)];
      }
      return !fails;
    }

    method StartTimerJob(job: JobId, refused: bool) returns (entry: Option<EntryId>)
      modifies this
      ensures entry == if refused then None else Some(old(lastEntry) + 1)
      ensures View() == if refused then old(View()) else Register(old(View()), job)
    {
      if refused {
        return None;
      }
      lastEntry := lastEntry + 1;
      live := live[lastEntry := job];
      return Some(lastEntry);
    }

    method StopTimerJob(entry: EntryId)
      modifies this
      ensures View() == Unregister(old(View()), entry)
    {
      live := live - {entry};
    }

    method FindById(job: JobId, refused: bool) returns (record: Option<JobRecord>)
      ensures record == if refused || job !in store then None else Some(store[job])
    {
      if refused || job !in store {
        return None;
      }
      return Some(store[job]);
    }

    /** stopJob: the record is returned with the entry id the caller is left with. */
    method StopJob(baseJob: JobRecord, f: StopFaults) returns (ok: bool, record: JobRecord)
      modifies this
      ensures View() == Stop(old(View()), baseJob, f)
      ensures ok == StopSucceeds(old(View()), baseJob, f)
      ensures record == if ok then baseJob.(entryId := 0) else baseJob
    {
      var entryId := baseJob.entryId;
      var currentJob := FindById(baseJob.id, f.find);
      if currentJob.None? {
        return false, baseJob;
      }
      if currentJob.value.entryId > 0 {
        entryId := currentJob.value.entryId;
      }
      var updated := UpdateEntryId(baseJob.id, 0, f.update, f.committed);
      if !updated {
        return false, baseJob;
      }
      if entryId > 0 {
        StopTimerJob(entryId);
      }
      return true, baseJob.(entryId := 0);
    }

    /** startJob; `seen` is every state the cron server is in from the call to the return. */
    method StartJob(baseJob: JobRecord, f: StartFaults) returns (ok: bool, record: JobRecord, ghost seen: seq<State>)
      modifies this
      ensures View() == Start(old(View()), baseJob, f)
      ensures ok == Starts(old(View()), baseJob, f)
      ensures record == if ok then baseJob.(entryId := ToInt32(lastEntry)) else baseJob
      ensures seen == StartTrace(old(View()), baseJob, f)
    {
      seen := [View()];
      if f.lookup || f.args {
        return false, baseJob, seen;
      }
      var oldEntryId := baseJob.entryId;
      var currentJob := FindById(baseJob.id, f.find);
      if currentJob.None? {
        return false, baseJob, seen;
      }
      if currentJob.value.entryId > 0 {
        oldEntryId := currentJob.value.entryId;
      }
      var entry := StartTimerJob(baseJob.id, f.register);
      if entry.None? {
        return false, baseJob, seen;
      }
      var entryId := entry.value;
      seen := seen + [View()];
      var updated := UpdateEntryId(baseJob.id, ToInt32(entryId), f.update, f.committed);
      if !updated {
        if f.committed {
          seen := seen + [View()];
        }
        StopTimerJob(entryId);
        seen := seen + [View()];
        return false, baseJob, seen;
      }
      seen := seen + [View()];
      if oldEntryId > 0 && oldEntryId != ToInt32(entryId) {
        StopTimerJob(oldEntryId);
        seen := seen + [View()];
      }
      return true, baseJob.(entryId := ToInt32(entryId)), seen;
    }

    /** reloadJobs on the list the store returned. */
    method ReloadJobs(list: seq<JobRecord>, f: ReloadFaults) returns (ok: bool)
      modifies this
      ensures ok ==> !f.list
      ensures f.list ==> View() == old(View())
      ensures !f.list ==> Reloaded(View(), ok) == ReloadFrom(old(View()), list, 0, [], f)
    {
      if f.list {
        return false;
      }
      var startedJobs: seq<JobRecord> := [];
      var i := 0;
      while i < |list|
        invariant 0 <= i <= |list|
        invariant ReloadFrom(View(), list, i, startedJobs, f) == ReloadFrom(old(View()), list, 0, [], f)
      {
        var item := list[i];
        ok, item := StopJob(item, f.stop(i));
        if !ok {
          return false;
        }
        if !item.enabled {
          i := i + 1;
          continue;
        }
        ghost var seen;
        ok, item, seen := StartJob(item, f.start(i));
        if !ok {
          var k := |startedJobs|;
          ghost var before := View();
          assert startedJobs[..k] == startedJobs;
          var going := true;
          while k > 0 && going
            invariant 0 <= k <= |startedJobs|
            invariant going ==>
                        Rollback(before, startedJobs, f.rollback) == Rollback(View(), startedJobs[..k], f.rollback)
            invariant !going ==> Rollback(before, startedJobs, f.rollback) == View()
          {
            var rollbackOk, stopped := StopJob(startedJobs[k - 1], f.rollback(k - 1));
            assert startedJobs[..k][..k - 1] == startedJobs[..k - 1];
            going := rollbackOk;
            k := k - 1;
          }
          return false;
        }
        startedJobs := startedJobs + [item];
        i := i + 1;
      }
      return true;
    }

    method Reload(list: seq<JobRecord>, f: ReloadFaults) returns (ok: bool)
      modifies this
      ensures View() == (if f.list then old(View()).(running := true)
                         else ReloadFrom(old(View()).(running := true), list, 0, [], f).state)
      ensures ok == (!f.list && ReloadFrom(old(View()).(running := true), list, 0, [], f).ok)
    {
      running := true;
      ok := ReloadJobs(list, f);
    }

    method ClearExecutionContext()
      modifies this
      ensures View() == old(View()).(running := false)
    {
      running := false;
    }

    method RemoveAllJobs()
      modifies this
      ensures View() == old(View()).(live := map[])
    {
      live := map[];
    }

    /** Server.Start: the cron transport may refuse to start, and the reload may fail. */
    method ServerStart(transportFails: bool, list: seq<JobRecord>, f: ReloadFaults) returns (ok: bool)
      modifies this
      ensures transportFails ==> !ok && View() == old(View())
      ensures !transportFails ==>
                var on := old(View()).(running := true);
                var reloaded := if f.list then Reloaded(on, false) else ReloadFrom(on, list, 0, [], f);
                && ok == reloaded.ok
                && View() == if ok then reloaded.state else reloaded.state.(live := map[], running := false)
    {
      if transportFails {
        return false;
      }
      ok := Reload(list, f);
      if !ok {
        RemoveAllJobs();
        ClearExecutionContext();
      }
    }

    /** Server.Stop: whether or not the transport stops cleanly. */
    method ServerStop()
      modifies this
      ensures View() == old(View()).(live := map[], running := false)
    {
      RemoveAllJobs();
      ClearExecutionContext();
    }
  }

  /** The states a start goes through. */
  ghost function StartTrace(s: State, job: JobRecord, f: StartFaults): seq<State> {
    if job.id !in s.store || f.lookup || f.args || f.find || f.register then [s]
    else
      var registered := Register(s, job.id);
      var entry := registered.lastEntry;
      var stored := SetEntry(registered, job.id, ToInt32(entry));
      if f.update then
        var left := if f.committed then stored else registered;
        [s, registered] + (if f.committed then [stored] else []) + [Unregister(left, entry)]
      else
        var before := KnownEntry(s, job);
        if before > 0 && before != ToInt32(entry) then [s, registered, stored, Unregister(stored, before)]
        else [s, registered, stored]
  }

  // ----- what no operation touches -----

  /** The same records but for their entry ids, and the same execution context. */
  ghost predicate OnlyEntries(s: State, t: State) {
    && t.store.Keys == s.store.Keys && t.running == s.running && s.lastEntry <= t.lastEntry
    && forall id :: id in s.store ==> t.store[id] == s.store[id].(entryId := t.store[id].entryId)
  }

  lemma {:induction false} OnlyEntriesThen(s: State, t: State, u: State)
    requires OnlyEntries(s, t) && OnlyEntries(t, u)
    ensures OnlyEntries(s, u)
  {
  }

  lemma {:induction false} OperationsOnlyEntries(s: State, job: JobRecord, f: StopFaults, g: StartFaults)
    ensures OnlyEntries(s, s) && OnlyEntries(s, Stop(s, job, f)) && OnlyEntries(s, Start(s, job, g))
  {
  }

  lemma {:induction false} RollbackOnlyEntries(s: State, started: seq<JobRecord>, f: nat -> StopFaults)
    ensures OnlyEntries(s, Rollback(s, started, f))
    decreases |started|
  {
    hide OnlyEntries, Stop;
    OperationsOnlyEntries(s, JobRecord(0, false, 0), NO_STOP_FAULTS, NO_START_FAULTS);
    if started != [] {
      var last := |started| - 1;
      var t := Stop(s, started[last], f(last));
      OperationsOnlyEntries(s, started[last], f(last), NO_START_FAULTS);
      RollbackOnlyEntries(t, started[..last], f);
      OnlyEntriesThen(s, t, Rollback(t, started[..last], f));
    }
  }

  lemma {:induction false} ReloadOnlyEntries(s: State, list: seq<JobRecord>, i: nat, started: seq<JobRecord>,
                                             f: ReloadFaults)
    requires i <= |list|
    ensures OnlyEntries(s, ReloadFrom(s, list, i, started, f).state)
    decreases |list| - i
  {
    hide OnlyEntries, Stop, Start, Rollback;
    OperationsOnlyEntries(s, JobRecord(0, false, 0), NO_STOP_FAULTS, NO_START_FAULTS);
    if i < |list| {
      var item, stopped := list[i].(entryId := 0), Stop(s, list[i], f.stop(i));
      var next := Start(stopped, item, f.start(i));
      OperationsOnlyEntries(s, list[i], f.stop(i), NO_START_FAULTS);
      OperationsOnlyEntries(stopped, item, NO_STOP_FAULTS, f.start(i));
      OnlyEntriesThen(s, stopped, next);
      RollbackOnlyEntries(next, started, f.rollback);
      OnlyEntriesThen(s, next, Rollback(next, started, f.rollback));
      ReloadOnlyEntries(stopped, list, i + 1, started, f);
      OnlyEntriesThen(s, stopped, ReloadFrom(stopped, list, i + 1, started, f).state);
      var more := started + [item.(entryId := ToInt32(next.lastEntry))];
      ReloadOnlyEntries(next, list, i + 1, more, f);
      OnlyEntriesThen(s, next, ReloadFrom(next, list, i + 1, more, f).state);
    }
  }

  /** Whether there is an execution context: the last call that concerns it was a reload. */
  predicate LastlyRunning(calls: seq<Call>, before: bool) {
    if calls == [] then before
    else
      match calls[|calls| - 1]
      case ReloadCall(_, _) => true
      case ClearCall => false
      case _ => LastlyRunning(calls[..|calls| - 1], before)
  }

  lemma {:induction false} LastlyRunningCons(call: Call, rest: seq<Call>, before: bool)
    ensures LastlyRunning([call] + rest, before) ==
            LastlyRunning(rest, call.ReloadCall? || (before && !call.ClearCall?))
  {
    var calls := [call] + rest;
    if rest == [] {
      assert calls[..0] == [];
    } else {
      assert calls[..|calls| - 1] == [call] + rest[..|rest| - 1];
      LastlyRunningCons(call, rest[..|rest| - 1], before);
    }
  }

  /** Over every run of calls the store keeps every record, enabled or not, but for its entry id: what a later reload
      reads of a job is what was stored before. */
  lemma {:induction false} EveryRunKeepsRecords(s: State, calls: seq<Call>)
    ensures Run(s, calls).store.Keys == s.store.Keys
    ensures forall id :: id in s.store ==>
              Run(s, calls).store[id] == s.store[id].(entryId := Run(s, calls).store[id].entryId)
    ensures Run(s, calls).running == LastlyRunning(calls, s.running)
    decreases |calls|
  {
    hide Start, Stop, ReloadFrom, LastlyRunning;
    if calls == [] {
      NoCalls(s.running);
    } else {
      var call, rest := calls[0], calls[1..];
      var t := Apply(s, call);
      assert calls == [call] + rest;
      LastlyRunningCons(call, rest, s.running);
      EveryRunKeepsRecords(t, rest);
      match call
      case StartCall(job, f) => OperationsOnlyEntries(s, job, NO_STOP_FAULTS, f);
      case StopCall(job, f) => OperationsOnlyEntries(s, job, f, NO_START_FAULTS);
      case ReloadCall(list, f) =>
        if !f.list {
          ReloadOnlyEntries(s.(running := true), list, 0, [], f);
        }
      case ClearCall =>
      case RemoveAllCall =>
    }
  }

  lemma {:induction false} NoCalls(before: bool)
    ensures LastlyRunning([], before) == before
  {
  }

  /** A rollback goes from the last started job to the first and ends at the first stop that is refused: the jobs after
      `k`, where that is, have lost their entry id, those before it have not. */
  lemma {:induction false} RollbackGoesBackwards(s: State, started: seq<JobRecord>, f: nat -> StopFaults, k: int,
                                                 j: nat)
    requires forall i :: 0 <= i < |started| ==> started[i].id in s.store
    requires Distinct(started) && -1 <= k < |started| && j < |started|
    requires (k >= 0 ==> f(k).Any()) && forall i: nat :: k < i < |started| ==> !f(i).Any()
    ensures started[j].id in Rollback(s, started, f).store
    ensures Rollback(s, started, f).store[started[j].id].entryId ==
            if j > k || (j == k && !f(k).find && f(k).committed) then 0 else s.store[started[j].id].entryId
    decreases |started|
  {
    var last := |started| - 1;
    var t, front := Stop(s, started[last], f(last)), started[..last];
    RollbackOnlyEntries(s, started, f);
    if k < last {
      if j < last {
        StopKeepsOthers(s, started[last], f(last), started[j].id);
        RollbackGoesBackwards(t, front, f, k, j);
      } else {
        RollbackKeepsOthers(t, front, f, started[last].id);
      }
    }
  }

  lemma {:induction false} RollbackKeepsOthers(s: State, started: seq<JobRecord>, f: nat -> StopFaults, id: JobId)
    requires id in s.store && forall i :: 0 <= i < |started| ==> started[i].id != id
    ensures id in Rollback(s, started, f).store && Rollback(s, started, f).store[id] == s.store[id]
    decreases |started|
  {
    if started != [] {
      var last := |started| - 1;
      StopKeepsOthers(s, started[last], f(last), id);
      RollbackKeepsOthers(Stop(s, started[last], f(last)), started[..last], f, id);
    }
  }

  // ----- agreement of the store and the cron server -----

  /** No stored id is another job's live entry. */
  ghost predicate NoneStolen(s: State) {
    forall job :: job in s.store && s.store[job].entryId in s.live ==> s.live[s.store[job].entryId] == job
  }

  /** Every live entry is the one stored for the job it runs, but for the jobs in `lost`. */
  ghost predicate StoredBut(s: State, lost: set<JobId>) {
    forall entry :: entry in s.live && s.live[entry] !in lost ==>
      s.live[entry] in s.store && s.store[s.live[entry]].entryId == entry
  }

  ghost predicate AllStored(s: State) { StoredBut(s, {}) }

  /** Ids the cron server will hand out are above every stored id, and fit the stored type. */
  ghost predicate Fresh(s: State, room: nat) {
    && s.lastEntry + room <= MAX_INT32
    && forall job :: job in s.store ==> s.store[job].entryId <= s.lastEntry
  }

  /** Every live entry was handed out by the cron server. */
  ghost predicate HandedOut(s: State) { forall e :: e in s.live ==> 0 < e <= s.lastEntry }

  ghost predicate AgreeBut(s: State, lost: set<JobId>) {
    NoneStolen(s) && StoredBut(s, lost) && HandedOut(s) && forall job :: job in s.store ==> s.store[job].id == job
  }

  ghost predicate Agree(s: State) { AgreeBut(s, {}) }

  /** The job whose update was made and reported as failed, if any. */
  function LostByStop(s: State, job: JobRecord, f: StopFaults): set<JobId> {
    if StopLost(s, job, f) then {job.id} else {}
  }

  function LostByStart(s: State, job: JobRecord, f: StartFaults): set<JobId> {
    if StartLost(s, job, f) then {job.id} else {}
  }

  lemma {:induction false} StopKeepsAgreement(s: State, job: JobRecord, f: StopFaults, room: nat, lost: set<JobId>)
    requires AgreeBut(s, lost) && Fresh(s, room)
    ensures AgreeBut(Stop(s, job, f), lost + LostByStop(s, job, f)) && Fresh(Stop(s, job, f), room)
  {
  }

  lemma {:induction false} StartKeepsAgreement(s: State, job: JobRecord, f: StartFaults, room: nat, lost: set<JobId>)
    requires AgreeBut(s, lost) && Fresh(s, room + 1)
    ensures AgreeBut(Start(s, job, f), lost + LostByStart(s, job, f)) && Fresh(Start(s, job, f), room)
  {
    if Starts(s, job, f) {
      StartedAgrees(s, job, f, room, lost);
    } else {
      hide Start;
      FailedStartChangesNothing(s, job, f);
      StartKeepsIds(s, job, f);
    }
  }

  lemma {:induction false} StartedAgrees(s: State, job: JobRecord, f: StartFaults, room: nat, lost: set<JobId>)
    requires AgreeBut(s, lost) && Fresh(s, room + 1) && Starts(s, job, f)
    ensures AgreeBut(Start(s, job, f), lost) && Fresh(Start(s, job, f), room)
  {
  }

  /** One stop loses the agreement exactly if the store drops the id of a live job and reports that it has not. */
  lemma {:induction false} StopKeepsAgreementIff(s: State, job: JobRecord, f: StopFaults)
    requires Agree(s) && Fresh(s, 0)
    ensures Agree(Stop(s, job, f)) <==> !(StopLost(s, job, f) && IsLive(s, job.id))
  {
    StopKeepsAgreement(s, job, f, 0, {});
    if IsLive(s, job.id) {
      var e :| e in s.live && s.live[e] == job.id;
      assert StopLost(s, job, f) ==> e in Stop(s, job, f).live && Stop(s, job, f).store[job.id].entryId == 0;
    }
  }

  /** One start loses it exactly if the store takes the new id of a live job and reports that it has not. */
  lemma {:induction false} StartKeepsAgreementIff(s: State, job: JobRecord, f: StartFaults)
    requires Agree(s) && Fresh(s, 1)
    ensures Agree(Start(s, job, f)) <==> !(StartLost(s, job, f) && IsLive(s, job.id))
  {
    StartKeepsAgreement(s, job, f, 0, {});
    if IsLive(s, job.id) {
      var e :| e in s.live && s.live[e] == job.id;
      if StartLost(s, job, f) {
        FailedStartChangesNothing(s, job, f);
        assert Start(s, job, f).store[job.id].entryId == s.lastEntry + 1 != e;
      }
    }
  }

  /** A live job is started again, the store takes the new id and reports an error: the new id stays stored, its
      entry is removed, and the old entry stays live with no record of it. */
  lemma {:induction false} LostUpdateStrandsAnEntry()
    ensures var s := State(map[10 := JobRecord(10, true, 1)], map[1 := 10], 1, true);
      && Agree(s) && Fresh(s, 1)
      && var t := Start(s, JobRecord(10, true, 1), StartFaults(false, false, false, false, true, true));
         t.store[10].entryId == 2 && t.live == map[1 := 10]
  {
    var s := State(map[10 := JobRecord(10, true, 1)], map[1 := 10], 1, true);
    var f := StartFaults(false, false, false, false, true, true);
    assert 2 !in s.live;
    FailedStartChangesNothing(s, JobRecord(10, true, 1), f);
  }

  // ----- every run of calls -----

  datatype Call =
    | StartCall(job: JobRecord, startFaults: StartFaults)
    | StopCall(job: JobRecord, stopFaults: StopFaults)
    | ReloadCall(list: seq<JobRecord>, reloadFaults: ReloadFaults)
    | ClearCall
    | RemoveAllCall

  function Apply(s: State, call: Call): State {
    match call
    case StartCall(job, f) => Start(s, job, f)
    case StopCall(job, f) => Stop(s, job, f)
    case ReloadCall(list, f) =>
      if f.list then s.(running := true) else ReloadFrom(s.(running := true), list, 0, [], f).state
    case ClearCall => s.(running := false)
    case RemoveAllCall => s.(live := map[])
  }

  function Run(s: State, calls: seq<Call>): State
    decreases |calls|
  {
    if calls == [] then s else Run(Apply(s, calls[0]), calls[1..])
  }

  /** How many ids the calls may use up. */
  function Demand(calls: seq<Call>): nat {
    if calls == [] then 0 else CallDemand(calls[0]) + Demand(calls[1..])
  }

  function CallDemand(call: Call): nat {
    match call
    case StartCall(_, _) => 1
    case ReloadCall(list, _) => |list|
    case _ => 0
  }

  /** What the calls of a run did: a reload is its stops and starts, and the stops of its rollback. */
  datatype Op = Started(job: JobId) | Stopped(job: JobId) | Lost(job: JobId) | AllRemoved

  function StopLog(s: State, job: JobRecord, f: StopFaults): seq<Op> {
    if StopSucceeds(s, job, f) then [Stopped(job.id)] else if StopLost(s, job, f) then [Lost(job.id)] else []
  }

  function StartLog(s: State, job: JobRecord, f: StartFaults): seq<Op> {
    if Starts(s, job, f) then [Started(job.id)] else if StartLost(s, job, f) then [Lost(job.id)] else []
  }

  function RollbackLog(s: State, started: seq<JobRecord>, f: nat -> StopFaults): seq<Op>
    decreases |started|
  {
    if started == [] then []
    else
      var last := |started| - 1;
      StopLog(s, started[last], f(last)) +
      if StopSucceeds(s, started[last], f(last)) then RollbackLog(Stop(s, started[last], f(last)), started[..last], f)
      else []
  }

  function ReloadLog(s: State, list: seq<JobRecord>, i: nat, started: seq<JobRecord>, f: ReloadFaults): seq<Op>
    requires i <= |list|
    decreases |list| - i
  {
    if i == |list| then []
    else
      var stopped, item := Stop(s, list[i], f.stop(i)), list[i].(entryId := 0);
      var next := Start(stopped, item, f.start(i));
      StopLog(s, list[i], f.stop(i)) +
      if !StopSucceeds(s, list[i], f.stop(i)) then []
      else if !list[i].enabled then ReloadLog(stopped, list, i + 1, started, f)
      else
        StartLog(stopped, item, f.start(i)) +
        if Starts(stopped, item, f.start(i)) then
          ReloadLog(next, list, i + 1, started + [item.(entryId := ToInt32(next.lastEntry))], f)
        else RollbackLog(next, started, f.rollback)
  }

  function CallLog(s: State, call: Call): seq<Op> {
    match call
    case StartCall(job, f) => StartLog(s, job, f)
    case StopCall(job, f) => StopLog(s, job, f)
    case ReloadCall(list, f) => if f.list then [] else ReloadLog(s.(running := true), list, 0, [], f)
    case ClearCall => []
    case RemoveAllCall => [AllRemoved]
  }

  function Log(s: State, calls: seq<Call>): seq<Op>
    decreases |calls|
  {
    if calls == [] then [] else CallLog(s, calls[0]) + Log(Apply(s, calls[0]), calls[1..])
  }

  /** The jobs that had an update made and reported as failed. */
  function LostIn(log: seq<Op>): set<JobId> { set k | 0 <= k < |log| && log[k].Lost? :: log[k].job }

  lemma {:induction false} LostAppend(a: seq<Op>, b: seq<Op>)
    ensures LostIn(a + b) == LostIn(a) + LostIn(b)
  {
    var all := a + b;
    forall id | id in LostIn(a) ensures id in LostIn(all) {
      var k :| 0 <= k < |a| && a[k].Lost? && a[k].job == id;
      assert all[k] == a[k];
    }
    forall id | id in LostIn(b) ensures id in LostIn(all) {
      var k :| 0 <= k < |b| && b[k].Lost? && b[k].job == id;
      assert all[|a| + k] == b[k];
    }
  }

  lemma {:induction false} LostByOne(s: State, job: JobRecord, f: StopFaults, g: StartFaults)
    ensures LostIn(StopLog(s, job, f)) == LostByStop(s, job, f)
    ensures LostIn(StartLog(s, job, g)) == LostByStart(s, job, g)
  {
    assert [Lost(job.id)][0] == Lost(job.id);
  }

  lemma {:induction false} NothingLost()
    ensures LostIn([]) == {} && LostIn([AllRemoved]) == {}
  {
  }

  lemma {:induction false} FreshShrinks(s: State, more: nat, room: nat)
    requires Fresh(s, more) && room <= more
    ensures Fresh(s, room)
  {
  }

  /** The two sides agree but for `lost`, with room for more ids. */
  ghost predicate Sound(s: State, room: nat, lost: set<JobId>) { AgreeBut(s, lost) && Fresh(s, room) }

  /** What holds even when stored ids run ahead of the cron server, as after a restart. */
  ghost predicate Kept(s: State, room: nat, lost: set<JobId>) {
    StoredBut(s, lost) && HandedOut(s) && s.lastEntry + room <= MAX_INT32
  }

  /** Both at once: `ahead` says whether the cron server is ahead of the stored ids. */
  ghost predicate Holds(ahead: bool, s: State, room: nat, lost: set<JobId>) {
    if ahead then Sound(s, room, lost) else Kept(s, room, lost)
  }

  lemma {:induction false} StopKeeps(ahead: bool, s: State, job: JobRecord, f: StopFaults, room: nat, lost: set<JobId>)
    requires Holds(ahead, s, room, lost)
    ensures Holds(ahead, Stop(s, job, f), room, lost + LostIn(StopLog(s, job, f)))
  {
    LostByOne(s, job, f, StartFaults(true, true, true, true, true, true));
    if ahead {
      StopKeepsAgreement(s, job, f, room, lost);
    }
  }

  lemma {:induction false} StartKeeps(ahead: bool, s: State, job: JobRecord, f: StartFaults, room: nat,
                                      lost: set<JobId>)
    requires Holds(ahead, s, room + 1, lost)
    ensures Holds(ahead, Start(s, job, f), room, lost + LostIn(StartLog(s, job, f)))
  {
    LostByOne(s, job, StopFaults(true, true, true), f);
    if ahead {
      StartKeepsAgreement(s, job, f, room, lost);
    } else {
      StartKeepsStored(s, job, f, room, lost);
    }
  }

  lemma {:induction false} StartKeepsStored(s: State, job: JobRecord, f: StartFaults, room: nat, lost: set<JobId>)
    requires Kept(s, room + 1, lost)
    ensures Kept(Start(s, job, f), room, lost + LostByStart(s, job, f))
  {
    assert s.lastEntry + 1 !in s.live;
  }

  lemma {:induction false} HoldsShrinks(ahead: bool, s: State, more: nat, room: nat, lost: set<JobId>)
    requires Holds(ahead, s, more, lost) && room <= more
    ensures Holds(ahead, s, room, lost)
  {
  }

  lemma {:induction false} RollbackKeeps(ahead: bool, s: State, started: seq<JobRecord>, f: nat -> StopFaults,
                                         room: nat, lost: set<JobId>)
    requires Holds(ahead, s, room, lost)
    ensures Holds(ahead, Rollback(s, started, f), room, lost + LostIn(RollbackLog(s, started, f)))
    decreases |started|
  {
    hide Holds, Stop, StopLog, LostIn;
    NothingLost();
    if started == [] {
      assert lost + {} == lost;
    } else {
      var last := |started| - 1;
      var t := Stop(s, started[last], f(last));
      var first := StopLog(s, started[last], f(last));
      StopKeeps(ahead, s, started[last], f(last), room, lost);
      if StopSucceeds(s, started[last], f(last)) {
        RollbackKeeps(ahead, t, started[..last], f, room, lost + LostIn(first));
        LostAppend(first, RollbackLog(t, started[..last], f));
        Regroup(lost, LostIn(first), LostIn(RollbackLog(t, started[..last], f)));
      } else {
        assert first + [] == first;
      }
    }
  }

  lemma {:induction false} Regroup(a: set<JobId>, b: set<JobId>, c: set<JobId>)
    ensures a + b + c == a + (b + c)
  {
  }

  lemma {:induction false} ReloadKeeps(ahead: bool, s: State, list: seq<JobRecord>, i: nat, started: seq<JobRecord>,
                                       f: ReloadFaults, room: nat, lost: set<JobId>)
    requires i <= |list| && Holds(ahead, s, |list| - i + room, lost)
    ensures Holds(ahead, ReloadFrom(s, list, i, started, f).state, room,
            lost + LostIn(ReloadLog(s, list, i, started, f)))
    decreases |list| - i
  {
    hide Holds, Stop, Start, Rollback, RollbackLog, StopLog, StartLog, LostIn, Starts;
    NothingLost();
    if i == |list| {
      assert lost + {} == lost;
    } else {
      var job, left := list[i], |list| - i - 1 + room;
      var item := job.(entryId := 0);
      var stopped, first := Stop(s, job, f.stop(i)), StopLog(s, job, f.stop(i));
      StopKeeps(ahead, s, job, f.stop(i), left + 1, lost);
      if !StopSucceeds(s, job, f.stop(i)) {
        assert first + [] == first;
        HoldsShrinks(ahead, stopped, left + 1, room, lost + LostIn(first));
      } else if !job.enabled {
        HoldsShrinks(ahead, stopped, left + 1, left, lost + LostIn(first));
        ReloadKeeps(ahead, stopped, list, i + 1, started, f, room, lost + LostIn(first));
        LostThen(lost, first, ReloadLog(stopped, list, i + 1, started, f));
      } else {
        var next, second := Start(stopped, item, f.start(i)), StartLog(stopped, item, f.start(i));
        var sofar := lost + LostIn(first) + LostIn(second);
        StartKeeps(ahead, stopped, item, f.start(i), left, lost + LostIn(first));
        if Starts(stopped, item, f.start(i)) {
          var more := started + [item.(entryId := ToInt32(next.lastEntry))];
          ReloadKeeps(ahead, next, list, i + 1, more, f, room, sofar);
          LostThen(lost + LostIn(first), second, ReloadLog(next, list, i + 1, more, f));
          LostThen(lost, first, second + ReloadLog(next, list, i + 1, more, f));
        } else {
          HoldsShrinks(ahead, next, left, room, sofar);
          RollbackKeeps(ahead, next, started, f.rollback, room, sofar);
          LostThen(lost + LostIn(first), second, RollbackLog(next, started, f.rollback));
          LostThen(lost, first, second + RollbackLog(next, started, f.rollback));
        }
      }
    }
  }

  lemma {:induction false} LostThen(lost: set<JobId>, first: seq<Op>, rest: seq<Op>)
    ensures lost + LostIn(first + rest) == lost + LostIn(first) + LostIn(rest)
  {
    hide LostIn;
    LostAppend(first, rest);
  }

  lemma {:induction false} CallKeeps(ahead: bool, s: State, call: Call, rest: nat, lost: set<JobId>)
    requires Holds(ahead, s, CallDemand(call) + rest, lost)
    ensures Holds(ahead, Apply(s, call), rest, lost + LostIn(CallLog(s, call)))
  {
    hide Stop, Start, ReloadFrom, ReloadLog, StopLog, StartLog, LostIn;
    NothingLost();
    HoldsShrinks(ahead, s, CallDemand(call) + rest, rest, lost);
    assert lost + {} == lost;
    match call
    case StartCall(job, f) => StartKeeps(ahead, s, job, f, rest, lost);
    case StopCall(job, f) => StopKeeps(ahead, s, job, f, rest, lost);
    case ReloadCall(list, f) =>
      if !f.list {
        ReloadKeeps(ahead, s.(running := true), list, 0, [], f, rest, lost);
      }
    case ClearCall =>
    case RemoveAllCall =>
  }

  lemma {:induction false} RunKeeps(ahead: bool, s: State, calls: seq<Call>, lost: set<JobId>)
    requires Holds(ahead, s, Demand(calls), lost)
    ensures Holds(ahead, Run(s, calls), 0, lost + LostIn(Log(s, calls)))
    decreases |calls|
  {
    hide Holds, Apply, CallLog, CallDemand, LostIn;
    NothingLost();
    if calls == [] {
      assert lost + {} == lost;
    } else {
      var t, rest, first := Apply(s, calls[0]), calls[1..], CallLog(s, calls[0]);
      CallKeeps(ahead, s, calls[0], Demand(rest), lost);
      RunKeeps(ahead, t, rest, lost + LostIn(first));
      LostThen(lost, first, Log(t, rest));
    }
  }

  /** Over every run of starts, stops and reloads, whichever calls are refused, no stored id is another job's live
      entry and every live entry is the one stored for its job, but for jobs that had an update made and reported as
      failed. */
  lemma {:induction false} EveryRunAgrees(s: State, calls: seq<Call>)
    requires Agree(s) && Fresh(s, Demand(calls))
    ensures AgreeBut(Run(s, calls), LostIn(Log(s, calls)))
  {
    hide Run, Log, AgreeBut, LostIn, Fresh, Demand;
    RunKeeps(true, s, calls, {});
    assert {} + LostIn(Log(s, calls)) == LostIn(Log(s, calls));
  }

  /** Whatever ids are stored at the beginning, over every run every live entry is the one stored for its job, but for
      those jobs. */
  lemma {:induction false} EveryLiveEntryIsStored(s: State, calls: seq<Call>)
    requires AllStored(s) && HandedOut(s) && s.lastEntry + Demand(calls) <= MAX_INT32
    ensures StoredBut(Run(s, calls), LostIn(Log(s, calls))) && HandedOut(Run(s, calls))
  {
    hide Run, Log, StoredBut, LostIn, HandedOut, Demand;
    RunKeeps(false, s, calls, {});
    assert {} + LostIn(Log(s, calls)) == LostIn(Log(s, calls));
  }

  /** The other half of the agreement is lost by a start exactly if some other job is stored under the id it is
      given. */
  lemma {:induction false} StartStealsIff(s: State, job: JobRecord, f: StartFaults)
    requires Agree(s) && s.lastEntry < MAX_INT32 && Starts(s, job, f)
    ensures NoneStolen(Start(s, job, f))
            <==> forall other :: other in s.store && other != job.id ==> s.store[other].entryId != s.lastEntry + 1
  {
    var t, entry := Start(s, job, f), s.lastEntry + 1;
    assert entry in t.live && t.live[entry] == job.id;
    forall other | other in s.store && other != job.id
      ensures other in t.store && t.store[other] == s.store[other]
    {
    }
  }

  // ----- which jobs are live -----

  /** The last operation that concerns the job started it; without one, `before` says. */
  predicate LastlyStarted(log: seq<Op>, job: JobId, before: bool) {
    if log == [] then before
    else
      match log[|log| - 1]
      case Started(j) => j == job || LastlyStarted(log[..|log| - 1], job, before)
      case Stopped(j) => j != job && LastlyStarted(log[..|log| - 1], job, before)
      case Lost(_) => LastlyStarted(log[..|log| - 1], job, before)
      case AllRemoved => false
  }

  lemma {:induction false} LastlyAppend(a: seq<Op>, b: seq<Op>, job: JobId, before: bool)
    ensures LastlyStarted(a + b, job, before) == LastlyStarted(b, job, LastlyStarted(a, job, before))
  {
    if b == [] {
      assert a + b == a;
    } else {
      assert (a + b)[..|a + b| - 1] == a + b[..|b| - 1];
      LastlyAppend(a, b[..|b| - 1], job, before);
    }
  }

  lemma {:induction false} LastlyOne(op: Op, job: JobId, before: bool)
    ensures LastlyStarted([], job, before) == before
    ensures LastlyStarted([op], job, before) ==
            match op
            case Started(j) => j == job || before
            case Stopped(j) => j != job && before
            case Lost(_) => before
            case AllRemoved => false
  {
    assert [op][..0] == [];
  }

  lemma {:induction false} LastlyByStop(s: State, job: JobRecord, f: StopFaults, x: JobId, before: bool)
    ensures LastlyStarted(StopLog(s, job, f), x, before) <==> before && !(StopSucceeds(s, job, f) && x == job.id)
  {
    LastlyOne(Stopped(job.id), x, before);
    LastlyOne(Lost(job.id), x, before);
  }

  lemma {:induction false} LastlyByStart(s: State, job: JobRecord, f: StartFaults, x: JobId, before: bool)
    ensures LastlyStarted(StartLog(s, job, f), x, before) <==> before || (Starts(s, job, f) && x == job.id)
  {
    LastlyOne(Started(job.id), x, before);
    LastlyOne(Lost(job.id), x, before);
  }

  /** The entry id in the caller's record counts only when none is stored; then it names no live entry. */
  ghost predicate Honest(s: State, job: JobRecord) {
    job.id in s.store && s.store[job.id].entryId <= 0 ==> job.entryId !in s.live
  }

  /** Callers pass honest records, and a reload the list of the store. */
  ghost predicate HonestRun(s: State, calls: seq<Call>)
    decreases |calls|
  {
    calls != [] ==> HonestCall(s, calls[0]) && HonestRun(Apply(s, calls[0]), calls[1..])
  }

  ghost predicate HonestCall(s: State, call: Call) {
    match call
    case StartCall(job, _) => Honest(s, job)
    case StopCall(job, _) => Honest(s, job)
    case ReloadCall(list, f) => f.list || Lists(s, list)
    case _ => true
  }

  lemma {:induction false} LiveAfterStop(s: State, job: JobRecord, f: StopFaults, x: JobId, lost: set<JobId>)
    requires AgreeBut(s, lost) && Honest(s, job) && x !in lost
    ensures IsLive(Stop(s, job, f), x) <==> IsLive(s, x) && !(StopSucceeds(s, job, f) && x == job.id)
  {
    var t := Stop(s, job, f);
    if IsLive(s, x) {
      var e :| e in s.live && s.live[e] == x;
      assert !(StopSucceeds(s, job, f) && x == job.id) ==> e in t.live && t.live[e] == x;
    }
    if IsLive(t, x) {
      var e :| e in t.live && t.live[e] == x;
      assert e in s.live && s.live[e] == x;
    }
  }

  /** A stop leaves the other jobs alone exactly if the caller's record is honest: with no entry stored, the program
      removes the entry that the record names, whosever it is by now. */
  lemma {:induction false} StopLeavesOthersIffHonest(s: State, job: JobRecord, f: StopFaults)
    requires Agree(s) && StopSucceeds(s, job, f)
    ensures (forall x :: x != job.id ==> (IsLive(Stop(s, job, f), x) <==> IsLive(s, x))) <==> Honest(s, job)
  {
    var t := Stop(s, job, f);
    if Honest(s, job) {
      forall x | x != job.id ensures IsLive(t, x) <==> IsLive(s, x) {
        LiveAfterStop(s, job, f, x, {});
      }
    } else {
      var other := s.live[job.entryId];
      assert IsLive(s, other) && !IsLive(t, other);
    }
  }

  lemma {:induction false} LiveAfterStart(s: State, job: JobRecord, f: StartFaults, x: JobId, lost: set<JobId>)
    requires AgreeBut(s, lost) && Fresh(s, 1) && Honest(s, job) && x !in lost
    ensures IsLive(Start(s, job, f), x) <==> IsLive(s, x) || (Starts(s, job, f) && x == job.id)
  {
    var t, entry := Start(s, job, f), s.lastEntry + 1;
    if !Starts(s, job, f) {
      FailedStartChangesNothing(s, job, f);
    } else {
      assert entry in t.live && t.live[entry] == job.id;
      if IsLive(s, x) && x != job.id {
        var e :| e in s.live && s.live[e] == x;
        assert e in t.live && t.live[e] == x;
      }
      if IsLive(t, x) && x != job.id {
        var e :| e in t.live && t.live[e] == x;
        assert e in s.live && s.live[e] == x;
      }
    }
  }

  /** A start that succeeds leaves the other jobs alone under the same condition, and for the same reason. */
  lemma {:induction false} StartLeavesOthersIffHonest(s: State, job: JobRecord, f: StartFaults)
    requires Agree(s) && Fresh(s, 1) && Starts(s, job, f)
    ensures (forall x :: x != job.id ==> (IsLive(Start(s, job, f), x) <==> IsLive(s, x))) <==> Honest(s, job)
  {
    var t := Start(s, job, f);
    if Honest(s, job) {
      forall x | x != job.id ensures IsLive(t, x) <==> IsLive(s, x) {
        LiveAfterStart(s, job, f, x, {});
      }
    } else {
      var other := s.live[job.entryId];
      assert IsLive(s, other) && !IsLive(t, other);
    }
  }

  /** The started jobs are stored with an entry, and once each. */
  ghost predicate StartedStored(s: State, started: seq<JobRecord>) {
    && (forall k :: 0 <= k < |started| ==> started[k].id in s.store && s.store[started[k].id].entryId > 0)
    && (forall j, k :: 0 <= j < k < |started| ==> started[j].id != started[k].id)
  }

  lemma {:induction false} StopKeepsOthers(s: State, job: JobRecord, f: StopFaults, id: JobId)
    requires id in s.store && id != job.id
    ensures id in Stop(s, job, f).store && Stop(s, job, f).store[id] == s.store[id]
  {
  }

  lemma {:induction false} LiveAfterRollback(s: State, started: seq<JobRecord>, f: nat -> StopFaults, room: nat,
                                             x: JobId, lost: set<JobId>)
    requires AgreeBut(s, lost) && Fresh(s, room) && StartedStored(s, started)
    requires x !in lost && x !in LostIn(RollbackLog(s, started, f))
    ensures IsLive(Rollback(s, started, f), x) <==> LastlyStarted(RollbackLog(s, started, f), x, IsLive(s, x))
    decreases |started|
  {
    hide AgreeBut, Fresh, Stop, StopLog, IsLive, LastlyStarted, LostIn;
    LastlyOne(AllRemoved, x, IsLive(s, x));
    if started != [] {
      var last := |started| - 1;
      var t, first := Stop(s, started[last], f(last)), StopLog(s, started[last], f(last));
      LiveAfterStop(s, started[last], f(last), x, lost);
      LastlyByStop(s, started[last], f(last), x, IsLive(s, x));
      if StopSucceeds(s, started[last], f(last)) {
        var rest := RollbackLog(t, started[..last], f);
        StopKeepsAgreement(s, started[last], f(last), room, lost);
        LostAppend(first, rest);
        forall k | 0 <= k < last ensures started[k].id in t.store && t.store[started[k].id].entryId > 0 {
          StopKeepsOthers(s, started[last], f(last), started[k].id);
        }
        LastlyAppend(first, rest, x, IsLive(s, x));
        assert lost + {} == lost;
        LiveAfterRollback(t, started[..last], f, room, x, lost);
      } else {
        assert first + [] == first;
      }
    }
  }

  /** Where a reload stands before position `i`: the rest of the list is stored as listed. */
  ghost predicate Resting(s: State, list: seq<JobRecord>, i: nat, started: seq<JobRecord>) {
    && i <= |list| && Distinct(list) && StartedStored(s, started)
    && (forall k :: i <= k < |list| ==> list[k].id in s.store && s.store[list[k].id] == list[k])
    && (forall j, k :: 0 <= j < |started| && i <= k < |list| ==> started[j].id != list[k].id)
  }

  lemma {:induction false} RestingSkip(s: State, list: seq<JobRecord>, i: nat, started: seq<JobRecord>, f: StopFaults)
    requires Resting(s, list, i, started) && i < |list|
    ensures Resting(Stop(s, list[i], f), list, i + 1, started)
    ensures list[i].id in Stop(s, list[i], f).store
  {
    hide Stop;
    StopKeepsIds(s, list[i], f);
    forall id | id in s.store && id != list[i].id ensures Stop(s, list[i], f).store[id] == s.store[id] {
      StopKeepsOthers(s, list[i], f, id);
    }
  }

  lemma {:induction false} RestingStart(s: State, list: seq<JobRecord>, i: nat, started: seq<JobRecord>, g: StartFaults)
    requires Resting(s, list, i + 1, started) && i < |list| && list[i].id in s.store && s.lastEntry < MAX_INT32
    requires forall j :: 0 <= j < |started| ==> started[j].id != list[i].id
    ensures var item := list[i].(entryId := 0); var next := Start(s, item, g);
      if Starts(s, item, g) then Resting(next, list, i + 1, started + [item.(entryId := ToInt32(next.lastEntry))])
      else StartedStored(next, started)
  {
  }

  lemma {:induction false} LiveAfterReload(s: State, list: seq<JobRecord>, i: nat, started: seq<JobRecord>,
                                           f: ReloadFaults, x: JobId, lost: set<JobId>)
    requires Resting(s, list, i, started) && AgreeBut(s, lost) && Fresh(s, |list| - i)
    requires x !in lost && x !in LostIn(ReloadLog(s, list, i, started, f))
    ensures IsLive(ReloadFrom(s, list, i, started, f).state, x)
            <==> LastlyStarted(ReloadLog(s, list, i, started, f), x, IsLive(s, x))
    decreases |list| - i
  {
    hide Fresh, Stop, Start, StopLog, StartLog, IsLive, LastlyStarted, Rollback, RollbackLog, StartedStored, NoneStolen;
    hide StoredBut, Starts, LostIn;
    LastlyOne(AllRemoved, x, IsLive(s, x));
    if i < |list| {
      var left := |list| - i - 1;
      var stopped, item := Stop(s, list[i], f.stop(i)), list[i].(entryId := 0);
      var first := StopLog(s, list[i], f.stop(i));
      LiveAfterStop(s, list[i], f.stop(i), x, lost);
      LastlyByStop(s, list[i], f.stop(i), x, IsLive(s, x));
      if !StopSucceeds(s, list[i], f.stop(i)) {
        assert first + [] == first;
      } else {
        StopKeepsAgreement(s, list[i], f.stop(i), left + 1, lost);
        assert lost + {} == lost;
        RestingSkip(s, list, i, started, f.stop(i));
        if !list[i].enabled {
          var rest := ReloadLog(stopped, list, i + 1, started, f);
          FreshShrinks(stopped, left + 1, left);
          LostAppend(first, rest);
          LiveAfterReload(stopped, list, i + 1, started, f, x, lost);
          LastlyAppend(first, rest, x, IsLive(s, x));
        } else {
          LostAppend(first, ItemLog(stopped, list, i, started, f));
          LiveAfterItem(stopped, list, i, started, f, x, lost);
          LastlyAppend(first, ItemLog(stopped, list, i, started, f), x, IsLive(s, x));
        }
      }
    }
  }

  /** What a reload does from the start of the job at `i` on, which it has stopped. */
  function ItemLog(s: State, list: seq<JobRecord>, i: nat, started: seq<JobRecord>, f: ReloadFaults): seq<Op>
    requires i < |list|
  {
    var item := list[i].(entryId := 0);
    var next := Start(s, item, f.start(i));
    StartLog(s, item, f.start(i)) +
    if Starts(s, item, f.start(i)) then
      ReloadLog(next, list, i + 1, started + [item.(entryId := ToInt32(next.lastEntry))], f)
    else RollbackLog(next, started, f.rollback)
  }

  function ItemDone(s: State, list: seq<JobRecord>, i: nat, started: seq<JobRecord>, f: ReloadFaults): State
    requires i < |list|
  {
    var item := list[i].(entryId := 0);
    var next := Start(s, item, f.start(i));
    if Starts(s, item, f.start(i)) then
      ReloadFrom(next, list, i + 1, started + [item.(entryId := ToInt32(next.lastEntry))], f).state
    else Rollback(next, started, f.rollback)
  }

  lemma {:induction false} LiveAfterItem(s: State, list: seq<JobRecord>, i: nat, started: seq<JobRecord>,
                                         f: ReloadFaults, x: JobId, lost: set<JobId>)
    requires i < |list| && Resting(s, list, i + 1, started) && list[i].id in s.store
    requires forall j :: 0 <= j < |started| ==> started[j].id != list[i].id
    requires AgreeBut(s, lost) && Fresh(s, |list| - i)
    requires x !in lost && x !in LostIn(ItemLog(s, list, i, started, f))
    ensures IsLive(ItemDone(s, list, i, started, f), x)
            <==> LastlyStarted(ItemLog(s, list, i, started, f), x, IsLive(s, x))
    decreases |list| - i, 0
  {
    hide Fresh, Stop, Start, StopLog, StartLog, IsLive, LastlyStarted, Rollback, RollbackLog, StartedStored, NoneStolen;
    hide StoredBut, Starts, LostIn, ReloadFrom, ReloadLog;
    var left, item := |list| - i - 1, list[i].(entryId := 0);
    var next, first := Start(s, item, f.start(i)), StartLog(s, item, f.start(i));
    FreshShrinks(s, left + 1, 1);
    FreshRoom(s, 1);
    LiveAfterStart(s, item, f.start(i), x, lost);
    LastlyByStart(s, item, f.start(i), x, IsLive(s, x));
    StartKeepsAgreement(s, item, f.start(i), left, lost);
    LostByOne(s, item, f.stop(i), f.start(i));
    RestingStart(s, list, i, started, f.start(i));
    if Starts(s, item, f.start(i)) {
      var more := started + [item.(entryId := ToInt32(next.lastEntry))];
      var rest := ReloadLog(next, list, i + 1, more, f);
      LostAppend(first, rest);
      LiveAfterReload(next, list, i + 1, more, f, x, lost + LostIn(first));
      LastlyAppend(first, rest, x, IsLive(s, x));
    } else {
      var rest := RollbackLog(next, started, f.rollback);
      LostAppend(first, rest);
      LiveAfterRollback(next, started, f.rollback, left, x, lost + LostIn(first));
      LastlyAppend(first, rest, x, IsLive(s, x));
    }
  }

  lemma {:induction false} FreshRoom(s: State, room: nat)
    requires Fresh(s, room)
    ensures s.lastEntry + room <= MAX_INT32
  {
  }

  /** After a run the live jobs are those whose last accepted operation was a start, or that were live and not touched;
      not said of jobs that had an update made and reported as failed. */
  lemma {:induction false} LiveIsLastlyStarted(s: State, calls: seq<Call>, x: JobId)
    requires Agree(s) && Fresh(s, Demand(calls)) && HonestRun(s, calls) && x !in LostIn(Log(s, calls))
    ensures IsLive(Run(s, calls), x) <==> LastlyStarted(Log(s, calls), x, IsLive(s, x))
  {
    LiveAfterRun(s, calls, x, {});
  }

  lemma {:induction false} LiveAfterRun(s: State, calls: seq<Call>, x: JobId, lost: set<JobId>)
    requires AgreeBut(s, lost) && Fresh(s, Demand(calls)) && HonestRun(s, calls)
    requires x !in lost && x !in LostIn(Log(s, calls))
    ensures IsLive(Run(s, calls), x) <==> LastlyStarted(Log(s, calls), x, IsLive(s, x))
    decreases |calls|
  {
    hide AgreeBut, Fresh, Apply, CallLog, CallDemand, IsLive, LastlyStarted, LostIn, HonestCall;
    LastlyOne(AllRemoved, x, IsLive(s, x));
    if calls != [] {
      var t, rest, first := Apply(s, calls[0]), calls[1..], CallLog(s, calls[0]);
      LostAppend(first, Log(t, rest));
      LiveAfterCall(s, calls[0], Demand(rest), x, lost);
      CallKeeps(true, s, calls[0], Demand(rest), lost);
      LiveAfterRun(t, rest, x, lost + LostIn(first));
      LastlyAppend(first, Log(t, rest), x, IsLive(s, x));
    }
  }

  lemma {:induction false} LiveAfterCall(s: State, call: Call, rest: nat, x: JobId, lost: set<JobId>)
    requires AgreeBut(s, lost) && Fresh(s, CallDemand(call) + rest) && HonestCall(s, call)
    requires x !in lost && x !in LostIn(CallLog(s, call))
    ensures IsLive(Apply(s, call), x) <==> LastlyStarted(CallLog(s, call), x, IsLive(s, x))
  {
    hide Start, Stop, ReloadFrom, ReloadLog, StopLog, StartLog, LastlyStarted, Honest, StopSucceeds, Starts, LostIn;
    LastlyOne(AllRemoved, x, IsLive(s, x));
    match call
    case StartCall(job, f) =>
      FreshShrinks(s, 1 + rest, 1);
      LiveAfterStart(s, job, f, x, lost);
      LastlyByStart(s, job, f, x, IsLive(s, x));
    case StopCall(job, f) =>
      LiveAfterStop(s, job, f, x, lost);
      LastlyByStop(s, job, f, x, IsLive(s, x));
    case ReloadCall(list, f) =>
      var on := s.(running := true);
      assert IsLive(on, x) <==> IsLive(s, x);
      if !f.list {
        FreshShrinks(on, |list| + rest, |list|);
        assert Resting(on, list, 0, []);
        LiveAfterReload(on, list, 0, [], f, x, lost);
      }
    case ClearCall =>
    case RemoveAllCall =>
  }

  // ----- restarting one job -----

  ghost predicate IsLive(s: State, job: JobId) { exists entry :: entry in s.live && s.live[entry] == job }

  /** A job that is live when it is started again is live in every state on the way. */
  lemma {:induction false} RestartNeverInterrupts(s: State, job: JobRecord, f: StartFaults)
    requires Agree(s) && Fresh(s, 1) && IsLive(s, job.id)
    ensures forall t :: t in StartTrace(s, job, f) ==> IsLive(t, job.id)
  {
    var e :| e in s.live && s.live[e] == job.id;
    forall t | t in StartTrace(s, job, f)
      ensures IsLive(t, job.id)
    {
      var entry := s.lastEntry + 1;
      assert (e in t.live && t.live[e] == job.id) || (entry in t.live && t.live[entry] == job.id);
    }
  }

  /** The states of a start lead from the one before it to the one after it, each by one call of the cron server or the
      store. */
  lemma {:induction false} TraceIsOneCallEach(s: State, job: JobRecord, f: StartFaults)
    ensures var trace := StartTrace(s, job, f);
      && trace != [] && trace[0] == s && trace[|trace| - 1] == Start(s, job, f)
      && forall i :: 0 <= i < |trace| - 1 ==> OneCall(trace[i], trace[i + 1], job.id)
  {
    if job.id in s.store {
      var registered := Register(s, job.id);
      var stored := SetEntry(registered, job.id, ToInt32(registered.lastEntry));
      assert OneCall(registered, stored, job.id);
    }
  }

  /** A new entry for the job, or one entry less, or a new entry id in its record. */
  ghost predicate OneCall(s: State, t: State, job: JobId) {
    || t == s.(lastEntry := s.lastEntry + 1, live := s.live[s.lastEntry + 1 := job])
    || (exists entry :: t == s.(live := s.live - {entry}))
    || (exists entry :: job in s.store && t == s.(store := s.store[job := s.store[job].(entryId := entry)]))
  }

  /** A start that fails leaves the live entries as they were, and the store too unless it has taken the new id and
      reports that it has not; only an id may be used up. */
  lemma {:induction false} FailedStartChangesNothing(s: State, job: JobRecord, f: StartFaults)
    requires HandedOut(s) && !Starts(s, job, f)
    ensures Start(s, job, f).live == s.live
    ensures Start(s, job, f).store ==
            if StartLost(s, job, f) then s.store[job.id := s.store[job.id].(entryId := ToInt32(s.lastEntry + 1))]
                else s.store
  {
    assert s.lastEntry + 1 !in s.live;
  }

  /** A start that succeeds leaves the job with the new entry alone, stored and live. */
  lemma {:induction false} StartReplacesEntry(s: State, job: JobRecord, f: StartFaults)
    requires Agree(s) && Fresh(s, 1) && Starts(s, job, f)
    ensures var t, entry := Start(s, job, f), s.lastEntry + 1;
      t.store[job.id].entryId == entry && forall e :: e in t.live && t.live[e] == job.id <==> e == entry
  {
  }

  // ----- reloading -----

  function EnabledBefore(list: seq<JobRecord>, i: nat): nat
    requires i <= |list|
  {
    if i == 0 then 0 else EnabledBefore(list, i - 1) + (if list[i - 1].enabled then 1 else 0)
  }

  /** The id that the reload hands out for the job at position `k`. */
  function NewEntry(c: nat, list: seq<JobRecord>, k: nat): nat
    requires k < |list|
  {
    c + EnabledBefore(list, k) + 1
  }

  /** Some later job in `..i` was stored under the id that the reload hands out for `k`. */
  predicate Collides(c: nat, list: seq<JobRecord>, k: nat, i: nat)
    requires k < |list| && i <= |list|
  {
    exists j :: k < j < i && list[j].entryId == NewEntry(c, list, k)
  }

  /** Where a reload that has met no refusal stands before position `i`; `c` is the last id before it. */
  ghost predicate ReloadedUpTo(s: State, c: nat, list: seq<JobRecord>, i: nat) {
    && i <= |list|
    && s.lastEntry == c + EnabledBefore(list, i)
    && (forall k :: 0 <= k < |list| ==> list[k].id in s.store)
    && (forall k :: i <= k < |list| ==> s.store[list[k].id] == list[k])
    && (forall k :: 0 <= k < i && !list[k].enabled ==> s.store[list[k].id].entryId == 0)
    && (forall k :: 0 <= k < i && list[k].enabled ==> s.store[list[k].id].entryId == NewEntry(c, list, k))
    && (forall k :: 0 <= k < i && list[k].enabled ==>
          (NewEntry(c, list, k) in s.live && s.live[NewEntry(c, list, k)] == list[k].id <==> !Collides(c, list, k, i)))
  }

  lemma {:induction false} EnabledBeforeGrows(list: seq<JobRecord>, i: nat, k: nat)
    requires i <= k <= |list|
    ensures EnabledBefore(list, i) <= EnabledBefore(list, k) <= EnabledBefore(list, i) + (k - i)
    ensures i < k && list[i].enabled ==> EnabledBefore(list, i) < EnabledBefore(list, k)
  {
    if i < k {
      EnabledBeforeGrows(list, i, k - 1);
    }
  }

  /** The list names every job once. */
  ghost predicate Distinct(list: seq<JobRecord>) {
    forall j, k :: 0 <= j < k < |list| ==> list[j].id != list[k].id
  }

  lemma {:induction false} CollidesStep(c: nat, list: seq<JobRecord>, k: nat, i: nat)
    requires k < i < |list|
    ensures Collides(c, list, k, i + 1) <==> Collides(c, list, k, i) || list[i].entryId == NewEntry(c, list, k)
  {
  }

  /** The same after the job at `i` has been stopped. */
  ghost predicate StoppedAt(s: State, c: nat, list: seq<JobRecord>, i: nat) {
    && i < |list|
    && s.lastEntry == c + EnabledBefore(list, i)
    && (forall k :: 0 <= k < |list| ==> list[k].id in s.store)
    && (forall k :: i < k < |list| ==> s.store[list[k].id] == list[k])
    && s.store[list[i].id].entryId == 0
    && (forall k :: 0 <= k < i && !list[k].enabled ==> s.store[list[k].id].entryId == 0)
    && (forall k :: 0 <= k < i && list[k].enabled ==> s.store[list[k].id].entryId == NewEntry(c, list, k))
    && (forall k :: 0 <= k < i && list[k].enabled ==>
          (NewEntry(c, list, k) in s.live && s.live[NewEntry(c, list, k)] == list[k].id
           <==> !Collides(c, list, k, i + 1)))
  }

  lemma {:induction false} StopsOnTheWay(s: State, c: nat, list: seq<JobRecord>, i: nat, f: StopFaults)
    requires ReloadedUpTo(s, c, list, i) && i < |list| && Distinct(list) && StopSucceeds(s, list[i], f)
    ensures StoppedAt(Stop(s, list[i], f), c, list, i)
  {
    hide Collides;
    forall k | 0 <= k < i
      ensures Collides(c, list, k, i + 1) <==> Collides(c, list, k, i) || list[i].entryId == NewEntry(c, list, k)
    {
      CollidesStep(c, list, k, i);
    }
  }

  lemma {:induction false} StartsOnTheWay(s: State, c: nat, list: seq<JobRecord>, i: nat, f: StartFaults)
    requires StoppedAt(s, c, list, i) && Distinct(list) && list[i].enabled && c + |list| <= MAX_INT32
    requires Starts(s, list[i].(entryId := 0), f)
    ensures ReloadedUpTo(Start(s, list[i].(entryId := 0), f), c, list, i + 1)
  {
    EnabledBeforeGrows(list, 0, i);
    assert !Collides(c, list, i, i + 1);
    hide Collides;
    forall k | 0 <= k < i && list[k].enabled
      ensures NewEntry(c, list, k) < NewEntry(c, list, i)
    {
      EnabledBeforeGrows(list, k, i);
    }
  }

  lemma {:induction false} ReloadRuns(s: State, c: nat, list: seq<JobRecord>, i: nat, started: seq<JobRecord>,
                                      f: ReloadFaults)
    requires ReloadedUpTo(s, c, list, i) && Distinct(list) && c + |list| <= MAX_INT32
    requires ReloadFrom(s, list, i, started, f).ok
    ensures ReloadedUpTo(ReloadFrom(s, list, i, started, f).state, c, list, |list|)
    decreases |list| - i
  {
    hide Stop, Start, Collides;
    if i < |list| {
      var item := list[i].(entryId := 0);
      var stopped := Stop(s, list[i], f.stop(i));
      StopsOnTheWay(s, c, list, i, f.stop(i));
      if list[i].enabled {
        var next := Start(stopped, item, f.start(i));
        StartsOnTheWay(stopped, c, list, i, f.start(i));
        ReloadRuns(next, c, list, i + 1, started + [item.(entryId := ToInt32(next.lastEntry))], f);
      } else {
        assert ReloadedUpTo(stopped, c, list, i + 1);
        ReloadRuns(stopped, c, list, i + 1, started, f);
      }
    }
  }

  /** Every enabled job of the list is live under the id stored for it. */
  ghost predicate EnabledLive(t: State, list: seq<JobRecord>) {
    forall k :: 0 <= k < |list| && list[k].enabled ==>
      && list[k].id in t.store
      && t.store[list[k].id].entryId in t.live
      && t.live[t.store[list[k].id].entryId] == list[k].id
  }

  /** A reload that reports success leaves every enabled job live exactly when no job was stored under
      an id that this reload hands out for a job before it. Stored ids that survived a restart can
      collide like that, and then the later job's stop removes the earlier job's new entry. */
  lemma {:induction false} ReloadCompleteIffNoCollision(s: State, list: seq<JobRecord>, f: ReloadFaults)
    requires Lists(s, list) && s.lastEntry + |list| <= MAX_INT32
    requires ReloadFrom(s, list, 0, [], f).ok
    ensures EnabledLive(ReloadFrom(s, list, 0, [], f).state, list)
            <==> forall k :: 0 <= k < |list| && list[k].enabled ==> !Collides(s.lastEntry, list, k, |list|)
  {
    ReloadRuns(s, s.lastEntry, list, 0, [], f);
  }

  lemma {:induction false} OkLosesNothing(s: State, list: seq<JobRecord>, i: nat, started: seq<JobRecord>,
                                          f: ReloadFaults)
    requires i <= |list| && ReloadFrom(s, list, i, started, f).ok
    ensures LostIn(ReloadLog(s, list, i, started, f)) == {}
    decreases |list| - i
  {
    hide Stop, Start, Rollback, LostIn, RollbackLog;
    NothingLost();
    if i < |list| {
      var stopped, item := Stop(s, list[i], f.stop(i)), list[i].(entryId := 0);
      LostByOne(s, list[i], f.stop(i), f.start(i));
      LostByOne(stopped, item, f.stop(i), f.start(i));
      if !list[i].enabled {
        OkLosesNothing(stopped, list, i + 1, started, f);
        LostAppend(StopLog(s, list[i], f.stop(i)), ReloadLog(stopped, list, i + 1, started, f));
      } else {
        var next := Start(stopped, item, f.start(i));
        var more := started + [item.(entryId := ToInt32(next.lastEntry))];
        OkLosesNothing(next, list, i + 1, more, f);
        LostAppend(StartLog(stopped, item, f.start(i)), ReloadLog(next, list, i + 1, more, f));
        LostAppend(StopLog(s, list[i], f.stop(i)),
            StartLog(stopped, item, f.start(i)) + ReloadLog(next, list, i + 1, more, f));
      }
    }
  }

  /** When the ids handed out exceed all stored ones, a successful reload leaves every enabled job with
      one live entry, the one stored for it, and the other jobs with none. */
  lemma {:induction false} ReloadComplete(s: State, list: seq<JobRecord>, f: ReloadFaults, id: JobId)
    requires Agree(s) && Fresh(s, |list|) && Lists(s, list) && id in s.store
    requires ReloadFrom(s, list, 0, [], f).ok
    ensures var t := ReloadFrom(s, list, 0, [], f).state;
      && id in t.store
      && (s.store[id].enabled ==> forall e :: e in t.live && t.live[e] == id <==> e == t.store[id].entryId)
      && (!s.store[id].enabled ==> t.store[id].entryId == 0 && !IsLive(t, id))
  {
    ReloadRuns(s, s.lastEntry, list, 0, [], f);
    ReloadKeeps(true, s, list, 0, [], f, 0, {});
    OkLosesNothing(s, list, 0, [], f);
    var k :| 0 <= k < |list| && list[k].id == id;
    assert !Collides(s.lastEntry, list, k, |list|);
  }

  /** With the counter of a new server at 0, the job stored first under any id and a second one stored
      under 1, both enabled: the reload reports success and the first job is not live. */
  lemma {:induction false} StaleIdsLoseAJob()
    ensures var a, b := JobRecord(10, true, 7), JobRecord(20, true, 1);
      var s, noFaults := State(map[10 := a, 20 := b], map[], 0, true),
        ReloadFaults(false, k => NO_STOP_FAULTS, k => NO_START_FAULTS,
                     k => NO_STOP_FAULTS);
      && Lists(s, [a, b])
      && ReloadFrom(s, [a, b], 0, [], noFaults).ok
      && !IsLive(ReloadFrom(s, [a, b], 0, [], noFaults).state, 10)
  {
    var a, b := JobRecord(10, true, 7), JobRecord(20, true, 1);
    var list := [a, b];
    var s := State(map[10 := a, 20 := b], map[], 0, true);
    var f := ReloadFaults(false, k => NO_STOP_FAULTS, k => NO_START_FAULTS,
                          k => NO_STOP_FAULTS);
    assert list[0] == a && list[1] == b;
    var a0, b0 := a.(entryId := 0), b.(entryId := 0);
    var s1 := Stop(s, a, f.stop(0));
    var s2 := Start(s1, a0, f.start(0));
    var s3 := Stop(s2, b, f.stop(1));
    var s4 := Start(s3, b0, f.start(1));
    assert s2.store[20] == b && s3.live == map[];
    assert ReloadFrom(s4, list, 2, [a0.(entryId := 1)] + [b0.(entryId := 2)], f) == Reloaded(s4, true);
    assert ReloadFrom(s2, list, 1, [a0.(entryId := 1)], f) == Reloaded(s4, true);
    assert [] + [a0.(entryId := 1)] == [a0.(entryId := 1)];
    assert ReloadFrom(s, list, 0, [], f) == Reloaded(s4, true);
  }

  // ----- a reload that fails -----

  datatype Refusal = NoRefusal | AtStop(at: nat) | AtStart(at: nat)

  /** The first call of a reload that is refused, from position `i` on. */
  function FirstRefusal(list: seq<JobRecord>, f: ReloadFaults, i: nat): (r: Refusal)
    requires i <= |list|
    ensures !r.NoRefusal? ==> i <= r.at < |list|
    decreases |list| - i
  {
    if i == |list| then NoRefusal
    else if f.stop(i).Any() then AtStop(i)
    else if list[i].enabled && f.start(i).Any() then AtStart(i)
    else FirstRefusal(list, f, i + 1)
  }

  /** Stored jobs that no earlier position of the list names. */
  ghost predicate Pending(s: State, list: seq<JobRecord>, i: nat) {
    Distinct(list) && forall k :: i <= k < |list| ==> list[k].id in s.store
  }

  /** A reload reports success exactly if nothing in its list is refused. */
  lemma {:induction false} ReloadOkIff(s: State, list: seq<JobRecord>, i: nat, started: seq<JobRecord>, f: ReloadFaults)
    requires i <= |list| && Pending(s, list, i)
    ensures ReloadFrom(s, list, i, started, f).ok <==> FirstRefusal(list, f, i).NoRefusal?
    decreases |list| - i
  {
    hide Rollback;
    if i < |list| && StopSucceeds(s, list[i], f.stop(i)) {
      var item := list[i].(entryId := 0);
      var stopped := Stop(s, list[i], f.stop(i));
      if !list[i].enabled {
        ReloadOkIff(stopped, list, i + 1, started, f);
      } else if Starts(stopped, item, f.start(i)) {
        var next := Start(stopped, item, f.start(i));
        ReloadOkIff(next, list, i + 1, started + [item.(entryId := ToInt32(next.lastEntry))], f);
      }
    }
  }

  /** Every live entry above `c` is the stored id of one of the jobs. */
  ghost predicate AccountedFor(s: State, c: nat, jobs: set<JobId>) {
    forall e :: e in s.live && e > c ==> s.live[e] in jobs && s.live[e] in s.store && s.store[s.live[e]].entryId == e
  }

  lemma {:induction false} StopKeepsAccount(s: State, c: nat, jobs: set<JobId>, job: JobRecord, f: StopFaults)
    requires AccountedFor(s, c, jobs) && HandedOut(s) && job.id !in jobs
    ensures AccountedFor(Stop(s, job, f), c, jobs) && HandedOut(Stop(s, job, f))
  {
  }

  /** A stop of one of the jobs takes its entry with it. */
  lemma {:induction false} StopTakesEntry(s: State, c: nat, jobs: set<JobId>, job: JobRecord, f: StopFaults)
    requires AccountedFor(s, c, jobs) && StopSucceeds(s, job, f)
    ensures AccountedFor(Stop(s, job, f), c, jobs - {job.id})
  {
  }

  lemma {:induction false} StartKeepsAccount(s: State, c: nat, jobs: set<JobId>, job: JobRecord, f: StartFaults)
    requires AccountedFor(s, c, jobs) && HandedOut(s) && job.id !in jobs && s.lastEntry < MAX_INT32
    ensures AccountedFor(Start(s, job, f), c, if Starts(s, job, f) then jobs + {job.id} else jobs)
    ensures HandedOut(Start(s, job, f))
  {
    assert s.lastEntry + 1 !in s.live;
  }

  function Ids(jobs: seq<JobRecord>): set<JobId> { set k | 0 <= k < |jobs| :: jobs[k].id }

  lemma {:induction false} RollbackUnlists(s: State, c: nat, jobs: set<JobId>, started: seq<JobRecord>,
                                           f: nat -> StopFaults)
    requires AccountedFor(s, c, jobs) && jobs <= Ids(started) && Ids(started) <= s.store.Keys
    requires forall k :: 0 <= k < |started| ==> f(k) == NO_STOP_FAULTS
    ensures forall e :: e in Rollback(s, started, f).live ==> e <= c
    decreases |started|
  {
    hide Stop;
    if started != [] {
      var front, last := started[..|started| - 1], started[|started| - 1];
      assert last.id in Ids(started);
      StopTakesEntry(s, c, jobs, last, f(|started| - 1));
      StopKeepsIds(s, last, f(|started| - 1));
      forall id | id in jobs - {last.id} ensures id in Ids(front) {
        var k :| 0 <= k < |started| && started[k].id == id;
        assert front[k] == started[k];
      }
      forall id | id in Ids(front) ensures id in Ids(started) {
        var k :| 0 <= k < |front| && front[k].id == id;
        assert started[k] == front[k];
      }
      RollbackUnlists(Stop(s, last, f(|started| - 1)), c, jobs - {last.id}, front, f);
    }
  }

  lemma {:induction false} StopKeepsIds(s: State, job: JobRecord, f: StopFaults)
    ensures Stop(s, job, f).store.Keys == s.store.Keys && Stop(s, job, f).lastEntry == s.lastEntry
  {
  }

  lemma {:induction false} StartKeepsIds(s: State, job: JobRecord, f: StartFaults)
    ensures Start(s, job, f).store.Keys == s.store.Keys && s.lastEntry <= Start(s, job, f).lastEntry <= s.lastEntry + 1
  {
  }

  /** The jobs of the list before position `i` that are enabled. */
  function EnabledIds(list: seq<JobRecord>, i: nat): set<JobId>
    requires i <= |list|
  {
    set k | 0 <= k < i && list[k].enabled :: list[k].id
  }

  lemma {:induction false} EnabledIdsGrow(list: seq<JobRecord>, i: nat)
    requires i < |list| && Distinct(list)
    ensures EnabledIds(list, i + 1) == if list[i].enabled then EnabledIds(list, i) + {list[i].id}
            else EnabledIds(list, i)
    ensures list[i].id !in EnabledIds(list, i)
  {
  }

  lemma {:induction false} IdsAppend(started: seq<JobRecord>, job: JobRecord)
    ensures Ids(started + [job]) == Ids(started) + {job.id}
  {
    var all := started + [job];
    assert all[|started|] == job && forall k :: 0 <= k < |started| ==> all[k] == started[k];
    forall id | id in Ids(started) ensures id in Ids(all) {
      var k :| 0 <= k < |started| && started[k].id == id;
      assert all[k].id == id;
    }
  }

  /** Where a reload that has met no refusal stands before position `i`, as to its own entries. */
  ghost predicate Accounted(s: State, c: nat, list: seq<JobRecord>, i: nat) {
    && i <= |list| && Pending(s, list, i) && HandedOut(s)
    && AccountedFor(s, c, EnabledIds(list, i))
    && s.lastEntry + (|list| - i) <= MAX_INT32
  }

  lemma {:induction false} AccountedStop(s: State, c: nat, list: seq<JobRecord>, i: nat, f: StopFaults)
    requires Accounted(s, c, list, i) && i < |list| && !list[i].enabled
    ensures Accounted(Stop(s, list[i], f), c, list, i + 1)
  {
    hide Stop, AccountedFor, EnabledIds, HandedOut;
    EnabledIdsGrow(list, i);
    StopKeepsAccount(s, c, EnabledIds(list, i), list[i], f);
    StopKeepsIds(s, list[i], f);
  }

  lemma {:induction false} AccountedStart(s: State, c: nat, list: seq<JobRecord>, i: nat, f: StopFaults, g: StartFaults)
    requires Accounted(s, c, list, i) && i < |list| && list[i].enabled
    ensures var item, stopped := list[i].(entryId := 0), Stop(s, list[i], f);
      && Start(stopped, item, g).store.Keys == s.store.Keys
      && (Starts(stopped, item, g) ==> Accounted(Start(stopped, item, g), c, list, i + 1))
      && (!Starts(stopped, item, g) ==> AccountedFor(Start(stopped, item, g), c, EnabledIds(list, i)))
  {
    hide Stop, Start, Starts, AccountedFor, EnabledIds, HandedOut;
    var item, stopped := list[i].(entryId := 0), Stop(s, list[i], f);
    EnabledIdsGrow(list, i);
    StopKeepsAccount(s, c, EnabledIds(list, i), list[i], f);
    StopKeepsIds(s, list[i], f);
    StartKeepsAccount(stopped, c, EnabledIds(list, i), item, g);
    StartKeepsIds(stopped, item, g);
  }

  /** When a start is refused and the rollback is not, no entry that the reload handed out stays live. */
  lemma {:induction false} FailedReloadUnlists(s: State, c: nat, list: seq<JobRecord>, i: nat, started: seq<JobRecord>,
                                               f: ReloadFaults)
    requires Accounted(s, c, list, i) && EnabledIds(list, i) == Ids(started) <= s.store.Keys
    requires forall k :: f.rollback(k) == NO_STOP_FAULTS
    requires FirstRefusal(list, f, i).AtStart?
    ensures forall e :: e in ReloadFrom(s, list, i, started, f).state.live ==> e <= c
    decreases |list| - i
  {
    hide Accounted, AccountedFor, EnabledIds, Ids, Rollback, Stop, Start;
    var item := list[i].(entryId := 0);
    var stopped := Stop(s, list[i], f.stop(i));
    AccountedHas(s, c, list, i);
    StopKeepsIds(s, list[i], f.stop(i));
    EnabledIdsGrow(list, i);
    if list[i].enabled {
      var next := Start(stopped, item, f.start(i));
      AccountedStart(s, c, list, i, f.stop(i), f.start(i));
      if Starts(stopped, item, f.start(i)) {
        IdsAppend(started, item.(entryId := ToInt32(next.lastEntry)));
        FailedReloadUnlists(next, c, list, i + 1, started + [item.(entryId := ToInt32(next.lastEntry))], f);
      } else {
        RollbackUnlists(next, c, EnabledIds(list, i), started, f.rollback);
      }
    } else {
      AccountedStop(s, c, list, i, f.stop(i));
      FailedReloadUnlists(stopped, c, list, i + 1, started, f);
    }
  }

  lemma {:induction false} AccountedHas(s: State, c: nat, list: seq<JobRecord>, i: nat)
    requires Accounted(s, c, list, i)
    ensures Distinct(list) && forall k :: i <= k < |list| ==> list[k].id in s.store
  {
  }

  /** When a stop is refused the reload just ends, where it stands. */
  lemma {:induction false} StopEndsReload(s: State, c: nat, list: seq<JobRecord>, i: nat, started: seq<JobRecord>,
                                          f: ReloadFaults)
    returns (u: State)
    requires ReloadedUpTo(s, c, list, i) && Accounted(s, c, list, i) && c + |list| <= MAX_INT32
    requires FirstRefusal(list, f, i).AtStop?
    ensures var t, at := ReloadFrom(s, list, i, started, f).state, FirstRefusal(list, f, i).at;
      ReloadedUpTo(u, c, list, at) && Accounted(u, c, list, at) && t.live == u.live
    decreases |list| - i
  {
    hide Stop, Start, Collides, ReloadedUpTo, Accounted, Rollback;
    AccountedHas(s, c, list, i);
    if StopSucceeds(s, list[i], f.stop(i)) {
      var item := list[i].(entryId := 0);
      var stopped := Stop(s, list[i], f.stop(i));
      StopsOnTheWay(s, c, list, i, f.stop(i));
      if list[i].enabled {
        var next := Start(stopped, item, f.start(i));
        StopKeepsIds(s, list[i], f.stop(i));
        StartsOnTheWay(stopped, c, list, i, f.start(i));
        AccountedStart(s, c, list, i, f.stop(i), f.start(i));
        u := StopEndsReload(next, c, list, i + 1, started + [item.(entryId := ToInt32(next.lastEntry))], f);
      } else {
        SkipsOnTheWay(stopped, c, list, i);
        AccountedStop(s, c, list, i, f.stop(i));
        u := StopEndsReload(stopped, c, list, i + 1, started, f);
      }
    } else {
      u := s;
      RefusedStopKeepsLive(s, list[i], f.stop(i));
    }
  }

  lemma {:induction false} RefusedStopKeepsLive(s: State, job: JobRecord, f: StopFaults)
    requires !StopSucceeds(s, job, f)
    ensures Stop(s, job, f).live == s.live
  {
  }

  lemma {:induction false} SkipsOnTheWay(s: State, c: nat, list: seq<JobRecord>, i: nat)
    requires StoppedAt(s, c, list, i) && !list[i].enabled
    ensures ReloadedUpTo(s, c, list, i + 1)
  {
  }

  /** A failed reload whose rollback is not refused leaves no entry live that it handed out, unless what failed
      was the stop of a job after an enabled one that still has its new entry: that failure is not rolled back. */
  lemma {:induction false} FailedReloadUndoneIff(s: State, list: seq<JobRecord>, f: ReloadFaults)
    requires Lists(s, list) && HandedOut(s) && s.lastEntry + |list| <= MAX_INT32
    requires forall k :: f.rollback(k) == NO_STOP_FAULTS
    requires !FirstRefusal(list, f, 0).NoRefusal?
    ensures !ReloadFrom(s, list, 0, [], f).ok
    ensures (forall e :: e in ReloadFrom(s, list, 0, [], f).state.live ==> e <= s.lastEntry)
            <==> match FirstRefusal(list, f, 0)
                 case AtStop(i) => !exists k :: 0 <= k < i && list[k].enabled && !Collides(s.lastEntry, list, k, i)
                 case _ => true
  {
    hide ReloadFrom, FirstRefusal, Collides;
    var t, c := ReloadFrom(s, list, 0, [], f).state, s.lastEntry;
    ReloadOkIff(s, list, 0, [], f);
    assert Accounted(s, c, list, 0);
    if FirstRefusal(list, f, 0).AtStart? {
      FailedReloadUnlists(s, c, list, 0, [], f);
    } else {
      var u := StopEndsReload(s, c, list, 0, [], f);
      LiveAtStop(u, c, list, FirstRefusal(list, f, 0).at);
    }
  }

  lemma {:induction false} LiveAtStop(t: State, c: nat, list: seq<JobRecord>, i: nat)
    requires ReloadedUpTo(t, c, list, i) && Accounted(t, c, list, i)
    ensures (forall e :: e in t.live ==> e <= c)
            <==> !exists k :: 0 <= k < i && list[k].enabled && !Collides(c, list, k, i)
  {
    hide Collides, EnabledBefore;
    forall k | 0 <= k < i && list[k].enabled && !Collides(c, list, k, i)
      ensures NewEntry(c, list, k) in t.live && NewEntry(c, list, k) > c
    {
    }
    forall e | e in t.live && e > c
      ensures exists k :: 0 <= k < i && list[k].enabled && !Collides(c, list, k, i)
    {
      var k :| 0 <= k < i && list[k].enabled && list[k].id == t.live[e];
      assert e == NewEntry(c, list, k);
    }
  }

  /** Two enabled jobs, the second of which is not found: the reload fails and the first stays live. */
  lemma {:induction false} RefusedStopKeepsAJob()
    ensures var a, b := JobRecord(10, true, 0), JobRecord(20, true, 0);
      var s, f := State(map[10 := a, 20 := b], map[], 0, true),
        ReloadFaults(false, k => StopFaults(k == 1, false, false), k => NO_START_FAULTS,
                     k => NO_STOP_FAULTS);
      && Lists(s, [a, b])
      && !ReloadFrom(s, [a, b], 0, [], f).ok
      && IsLive(ReloadFrom(s, [a, b], 0, [], f).state, 10)
  {
    var a, b := JobRecord(10, true, 0), JobRecord(20, true, 0);
    var list := [a, b];
    var s, f := State(map[10 := a, 20 := b], map[], 0, true),
      ReloadFaults(false, k => StopFaults(k == 1, false, false), k => NO_START_FAULTS,
                   k => NO_STOP_FAULTS);
    assert Lists(s, list) by {
      assert list[0].id == 10 && list[1].id == 20;
    }
    assert FirstRefusal(list, f, 1) == AtStop(1);
    var u := StopEndsReload(s, 0, list, 0, [], f);
    assert IsLive(u, 10) ==> IsLive(ReloadFrom(s, list, 0, [], f).state, 10);
    assert !Collides(0, list, 0, 1);
    assert EnabledBefore(list, 0) == 0;
    ReloadOkIff(s, list, 0, [], f);
  }
}
