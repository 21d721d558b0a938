/** What every sequence of task operations keeps (robothor/crm/dal.py). */
module TaskLaws {
  import opened Sequences
  import Text
  import opened Tasks

  /** One call of one entry point, as the database sees it; a call that raised is a `Failed` one. */
  datatype Op =
    | Create(id: Id, title: string, body: Option<string>, status: Status, createdBy: Option<string>,
             assignedTo: Option<string>, priority: string, parent: Option<Id>, requiresHuman: bool)
    | Update(id: Id, changes: Changes, changedBy: Option<string>)
    | Resolve(id: Id, resolution: string, agent: Option<string>, owners: set<string>)
    | Approve(id: Id, resolution: string, reviewer: string)
    | Reject(id: Id, reason: string, reviewer: string, requests: seq<(Id, string)>)
    | Delete(id: Id)
    | Failed

  datatype Call = Call(op: Op, tenant: string, now: Time)

  function After(db: Db, call: Call): Db {
    match call.op
    case Create(id, title, body, status, createdBy, assignedTo, priority, parent, requiresHuman) =>
      CreateSpec(db, id, NewTask(title, body, status, createdBy, assignedTo, priority, parent, requiresHuman,
                                 call.tenant, call.now)).0
    case Update(id, changes, changedBy) => UpdateSpec(db, id, changes, changedBy, call.tenant, call.now).0
    case Resolve(id, resolution, agent, owners) => ResolveSpec(db, id, resolution, agent, owners, call.tenant, call.now).0
    case Approve(id, resolution, reviewer) => ApproveSpec(db, id, resolution, reviewer, call.tenant, call.now).0
    case Reject(id, reason, reviewer, requests) => RejectSpec(db, id, reason, reviewer, requests, call.tenant).0
    case Delete(id) => DeleteSpec(db, id, call.tenant, call.now).0
    case Failed => db
  }

  function Run(db: Db, calls: seq<Call>): Db
    decreases |calls|
  {
    if calls == [] then db else Run(After(db, calls[0]), calls[1..])
  }

  const EMPTY := Db(map[], [])

  // ---- Histories ----

  function IsAbout(id: Id): Record -> bool {
    (r: Record) => r.taskId == id
  }

  function HistoryOf(db: Db, id: Id): seq<Record> {
    Filter(db.history, IsAbout(id))
  }

  /** Read from the end: each record leaves the status the next one starts from, along an allowed
      edge; the oldest record is a creation, or the first move of a subtask that was inserted TODO
      without one. */
  predicate Chain(records: seq<Record>, status: Status) {
    if records == [] then status == TODO
    else
      var last := records[|records| - 1];
      && last.to == status
      && (match last.from
          case None => |records| == 1
          case Some(previous) => status in Allowed(previous) && Chain(records[..|records| - 1], previous))
  }

  /** The same thing said record by record. */
  predicate ChainOfRecords(records: seq<Record>, status: Status) {
    && (records == [] ==> status == TODO)
    && (records != [] ==>
          && records[|records| - 1].to == status
          && (records[0].from.Some? ==> records[0].from == Some(TODO)))
    && (forall k :: 0 < k < |records| ==> records[k].from == Some(records[k - 1].to))
    && (forall k :: 0 <= k < |records| && records[k].from.Some? ==> records[k].to in Allowed(records[k].from.value))
  }

  lemma {:induction false} ChainIsChainOfRecords(records: seq<Record>, status: Status)
    requires Chain(records, status)
    ensures ChainOfRecords(records, status)
  {
    if records != [] {
      var last := records[|records| - 1];
      if last.from.Some? {
        ChainIsChainOfRecords(records[..|records| - 1], last.from.value);
      }
    }
  }

  lemma HistoryGrows(history: seq<Record>, r: Record, id: Id)
    ensures Filter(history + [r], IsAbout(id)) == Filter(history, IsAbout(id)) + if r.taskId == id then [r] else []
  {
    FilterConcat(history, [r], IsAbout(id));
    FilterCons(r, [], IsAbout(id));
    assert [r] + [] == [r];
  }

  // ---- The invariant ----

  /** Every task's history is a chain ending in its status, and records belong to existing tasks. */
  ghost predicate Consistent(db: Db) {
    && (forall id :: id in db.tasks ==> Chain(HistoryOf(db, id), db.tasks[id].status))
    && (forall id :: id !in db.tasks ==> HistoryOf(db, id) == [])
  }

  lemma ConsistentWithRecord(db: Db, id: Id, task: Task, r: Record)
    requires Consistent(db) && r.taskId == id && r.to == task.status
    requires if id in db.tasks then r.from == Some(db.tasks[id].status) && r.to in Allowed(db.tasks[id].status)
             else r.from == None
    ensures Consistent(Db(db.tasks[id := task], db.history + [r]))
  {
    var next := Db(db.tasks[id := task], db.history + [r]);
    forall k: Id ensures HistoryOf(next, k) == if k == id then HistoryOf(db, k) + [r] else HistoryOf(db, k) {
      HistoryGrows(db.history, r, k);
    }
    var records := HistoryOf(db, id);
    assert (records + [r])[..|records|] == records;
    assert Chain(HistoryOf(next, id), task.status);
  }

  lemma ConsistentWithoutRecord(db: Db, id: Id, task: Task)
    requires Consistent(db)
    requires task.status == if id in db.tasks then db.tasks[id].status else TODO
    ensures Consistent(db.(tasks := db.tasks[id := task]))
  {
  }

  lemma {:induction false} ConsistentWithSubtasks(db: Db, parent: Id, t: Task, reviewer: string, requests: seq<(Id, string)>)
    requires Consistent(db) && WithSubtasks(db.tasks, parent, t, reviewer, requests).Some?
    ensures Consistent(db.(tasks := WithSubtasks(db.tasks, parent, t, reviewer, requests).value))
    decreases |requests|
  {
    if requests != [] {
      var (id, request) := requests[0];
      var row := Subtask(parent, t, request, reviewer);
      ConsistentWithoutRecord(db, id, row);
      ConsistentWithSubtasks(db.(tasks := db.tasks[id := row]), parent, t, reviewer, requests[1..]);
    }
  }

  lemma StepKeepsConsistency(db: Db, call: Call)
    requires Consistent(db)
    ensures Consistent(After(db, call))
  {
    var next := After(db, call);
    match call.op
    case Create(id, title, body, status, createdBy, assignedTo, priority, parent, requiresHuman) =>
      if next != db {
        ConsistentWithRecord(db, id, next.tasks[id], next.history[|db.history|]);
      }
    case Update(id, changes, changedBy) =>
      if next != db {
        if next.history == db.history {
          ConsistentWithoutRecord(db, id, next.tasks[id]);
        } else {
          ConsistentWithRecord(db, id, next.tasks[id], next.history[|db.history|]);
        }
      }
    case Resolve(id, _, _, _) =>
      if next != db {
        ConsistentWithRecord(db, id, next.tasks[id], next.history[|db.history|]);
      }
    case Approve(id, _, _) =>
      if next != db {
        ConsistentWithRecord(db, id, next.tasks[id], next.history[|db.history|]);
      }
    case Reject(id, reason, reviewer, requests) =>
      if next != db {
        var t := db.tasks[id];
        var moved := MoveTo(db, id, t.(status := IN_PROGRESS), Some(reviewer), reason);
        ConsistentWithRecord(db, id, moved.tasks[id], moved.history[|db.history|]);
        ConsistentWithSubtasks(moved, id, t, reviewer, requests);
      }
    case Delete(id) =>
      if next != db {
        ConsistentWithoutRecord(db, id, next.tasks[id]);
      }
    case Failed =>
  }

  // ---- What one call does to one task ----

  /** The task and its history are as before, except perhaps for columns no law speaks of. */
  ghost predicate StatusKept(db: Db, next: Db, id: Id)
    requires id in db.tasks && id in next.tasks
  {
    && HistoryOf(next, id) == HistoryOf(db, id)
    && next.tasks[id].status == db.tasks[id].status
    && next.tasks[id].startedAt == db.tasks[id].startedAt
  }

  /** The task moved along one allowed edge, and the move was recorded; `startedAt` was set if the
      move is a first one to IN_PROGRESS, and never changed otherwise. */
  ghost predicate Moved(db: Db, next: Db, id: Id)
    requires id in db.tasks && id in next.tasks
  {
    var before, now := db.tasks[id], next.tasks[id];
    && now.status in Allowed(before.status)
    && (exists r :: HistoryOf(next, id) == HistoryOf(db, id) + [r] && r.from == Some(before.status) && r.to == now.status)
    && (before.startedAt.Some? ==> now.startedAt == before.startedAt)
    && (before.startedAt.None? && now.startedAt.Some? ==> now.status == IN_PROGRESS)
    && (now.status == IN_PROGRESS ==> now.startedAt.Some? || before.status == REVIEW)
  }

  lemma RecordedMove(db: Db, next: Db, id: Id, r: Record)
    requires id in db.tasks && id in next.tasks && next.history == db.history + [r]
    requires r.taskId == id && r.from == Some(db.tasks[id].status) && r.to == next.tasks[id].status
    ensures HistoryOf(next, id) == HistoryOf(db, id) + [r]
    ensures forall k :: k != id ==> HistoryOf(next, k) == HistoryOf(db, k)
  {
    forall k: Id ensures HistoryOf(next, k) == if k == id then HistoryOf(db, k) + [r] else HistoryOf(db, k) {
      HistoryGrows(db.history, r, k);
    }
  }

  lemma {:induction false} SubtasksAreNew(tasks: map<Id, Task>, parent: Id, t: Task, reviewer: string, requests: seq<(Id, string)>)
    requires WithSubtasks(tasks, parent, t, reviewer, requests).Some?
    ensures var r := WithSubtasks(tasks, parent, t, reviewer, requests).value;
            && (forall id :: id in tasks ==> id in r && r[id] == tasks[id])
            && (forall id :: id in r && id !in tasks ==>
                  r[id].status == TODO && r[id].startedAt == None && r[id].parent == Some(parent) && r[id].createdBy == Some(reviewer))
    decreases |requests|
  {
    if requests != [] {
      var (id, request) := requests[0];
      SubtasksAreNew(tasks[id := Subtask(parent, t, request, reviewer)], parent, t, reviewer, requests[1..]);
    }
  }

  /** One call leaves a task's status alone or moves it along one recorded, allowed edge. */
  lemma StepOnTask(db: Db, call: Call, id: Id)
    requires id in db.tasks
    ensures var next := After(db, call);
            id in next.tasks && (StatusKept(db, next, id) || Moved(db, next, id))
  {
    var next := After(db, call);
    if next.history == db.history {
    } else if call.op.Create? {
      HistoryGrows(db.history, next.history[|db.history|], id);
    } else if call.op.Reject? {
      var t := db.tasks[call.op.id];
      var moved := MoveTo(db, call.op.id, t.(status := IN_PROGRESS), Some(call.op.reviewer), call.op.reason);
      RecordedMove(db, moved, call.op.id, next.history[|db.history|]);
      SubtasksAreNew(moved.tasks, call.op.id, t, call.op.reviewer, call.op.requests);
      assert HistoryOf(next, id) == HistoryOf(moved, id);
    } else {
      RecordedMove(db, next, call.op.id, next.history[|db.history|]);
    }
  }

  /** A task one call brings in is a recorded creation, or an unrecorded subtask in TODO. */
  lemma StepOnNewTask(db: Db, call: Call, id: Id)
    requires Consistent(db) && id !in db.tasks && id in After(db, call).tasks
    ensures var next := After(db, call);
            var t := next.tasks[id];
            || (call.op.Create? && t.status == call.op.status && (t.startedAt.Some? <==> t.status == IN_PROGRESS)
                && exists r :: HistoryOf(next, id) == [r] && r.from == None && r.to == t.status)
            || (call.op.Reject? && t.status == TODO && t.startedAt == None && HistoryOf(next, id) == [])
  {
    var next := After(db, call);
    match call.op
    case Create(_, _, _, _, _, _, _, _, _) =>
      HistoryGrows(db.history, next.history[|db.history|], id);
      assert HistoryOf(next, id) == [] + [next.history[|db.history|]] == [next.history[|db.history|]];
    case Reject(parent, reason, reviewer, requests) =>
      var t := db.tasks[parent];
      var moved := MoveTo(db, parent, t.(status := IN_PROGRESS), Some(reviewer), reason);
      RecordedMove(db, moved, parent, next.history[|db.history|]);
      SubtasksAreNew(moved.tasks, parent, t, reviewer, requests);
      assert HistoryOf(next, id) == HistoryOf(moved, id);
    case _ =>
  }

  // ---- Deleted and foreign tasks never change ----

  /** A deleted task, or one of another tenant, comes out of any call as it went in. */
  lemma HiddenTaskUnchanged(db: Db, call: Call, id: Id)
    requires id in db.tasks && !Visible(db, id, call.tenant)
    ensures var next := After(db, call);
            id in next.tasks && next.tasks[id] == db.tasks[id] && HistoryOf(next, id) == HistoryOf(db, id)
  {
    var next := After(db, call);
    if next.history == db.history {
    } else if call.op.Create? {
      HistoryGrows(db.history, next.history[|db.history|], id);
    } else if call.op.Reject? {
      var t := db.tasks[call.op.id];
      var moved := MoveTo(db, call.op.id, t.(status := IN_PROGRESS), Some(call.op.reviewer), call.op.reason);
      RecordedMove(db, moved, call.op.id, next.history[|db.history|]);
      SubtasksAreNew(moved.tasks, call.op.id, t, call.op.reviewer, call.op.requests);
      assert HistoryOf(next, id) == HistoryOf(moved, id);
    } else {
      RecordedMove(db, next, call.op.id, next.history[|db.history|]);
    }
  }

  /** Deletion is final: over any run a soft-deleted task and its history stay as they are. */
  lemma {:induction false} DeletedTaskNeverChanges(db: Db, calls: seq<Call>, id: Id)
    requires id in db.tasks && db.tasks[id].deletedAt.Some?
    ensures var end := Run(db, calls);
            id in end.tasks && end.tasks[id] == db.tasks[id] && HistoryOf(end, id) == HistoryOf(db, id)
    decreases |calls|
  {
    if calls != [] {
      HiddenTaskUnchanged(db, calls[0], id);
      DeletedTaskNeverChanges(After(db, calls[0]), calls[1..], id);
    }
  }

  // ---- Chains over whole runs ----

  lemma {:induction false} RunKeepsConsistency(db: Db, calls: seq<Call>)
    requires Consistent(db)
    ensures Consistent(Run(db, calls))
    decreases |calls|
  {
    if calls != [] {
      StepKeepsConsistency(db, calls[0]);
      RunKeepsConsistency(After(db, calls[0]), calls[1..]);
    }
  }

  /** In every reachable state every task's history is a chain of allowed moves that ends in the
      task's status; a task without a record is a subtask still in TODO. */
  lemma HistoriesAreChains(calls: seq<Call>, id: Id)
    requires id in Run(EMPTY, calls).tasks
    ensures var db := Run(EMPTY, calls);
            ChainOfRecords(HistoryOf(db, id), db.tasks[id].status)
  {
    assert forall k :: HistoryOf(EMPTY, k) == [];
    RunKeepsConsistency(EMPTY, calls);
    ChainIsChainOfRecords(HistoryOf(Run(EMPTY, calls), id), Run(EMPTY, calls).tasks[id].status);
  }

  // ---- Work has started ----

  /** The status a task was born in: that of its creation record, or TODO for a subtask. */
  function BornIn(records: seq<Record>): Status {
    if records != [] && records[0].from.None? then records[0].to else TODO
  }

  predicate BornToWork(records: seq<Record>) {
    BornIn(records) in {TODO, IN_PROGRESS}
  }

  predicate EverInProgress(records: seq<Record>) {
    exists k :: 0 <= k < |records| && records[k].to == IN_PROGRESS
  }

  /** Work was done after the task last was in TODO. */
  predicate WorkedSinceTodo(records: seq<Record>) {
    exists k :: 0 <= k < |records| && records[k].to == IN_PROGRESS && forall j :: k < j < |records| ==> records[j].to != TODO
  }

  lemma WorkedStays(records: seq<Record>)
    requires records != [] && WorkedSinceTodo(records[..|records| - 1]) && records[|records| - 1].to != TODO
    ensures WorkedSinceTodo(records)
  {
  }

  /** Along any chain that starts in TODO or IN_PROGRESS, leaving TODO means working. */
  lemma {:induction false} ChainsOutsideTodoWorked(records: seq<Record>, status: Status)
    requires Chain(records, status) && BornToWork(records) && status != TODO
    ensures WorkedSinceTodo(records)
  {
    var n := |records| - 1;
    var last := records[n];
    if status == IN_PROGRESS {
      assert records[n].to == IN_PROGRESS;
    } else if last.from.Some? {
      assert last.from.value != TODO;
      ChainsOutsideTodoWorked(records[..n], last.from.value);
      WorkedStays(records);
    }
  }

  /** `startedAt` is set exactly when the history has an entry into IN_PROGRESS. */
  ghost predicate StartRecorded(db: Db, id: Id)
    requires id in db.tasks
  {
    BornToWork(HistoryOf(db, id)) ==> (db.tasks[id].startedAt.Some? <==> EverInProgress(HistoryOf(db, id)))
  }

  ghost predicate StartsRecorded(db: Db) {
    forall id :: id in db.tasks ==> StartRecorded(db, id)
  }

  lemma EverInProgressGrows(records: seq<Record>, r: Record)
    ensures EverInProgress(records + [r]) <==> EverInProgress(records) || r.to == IN_PROGRESS
  {
    var more := records + [r];
    assert more[|records|] == r;
    assert forall k :: 0 <= k < |records| ==> more[k] == records[k];
  }

  lemma BirthStays(records: seq<Record>, r: Record)
    requires r.from.Some?
    ensures BornIn(records + [r]) == BornIn(records)
  {
  }

  lemma StepOnTaskRecordsStart(db: Db, call: Call, id: Id)
    requires Consistent(db) && id in db.tasks && StartRecorded(db, id)
    ensures id in After(db, call).tasks && StartRecorded(After(db, call), id)
  {
    var next := After(db, call);
    StepOnTask(db, call, id);
    if !StatusKept(db, next, id) {
      var records := HistoryOf(db, id);
      var r :| HistoryOf(next, id) == records + [r] && r.from == Some(db.tasks[id].status) && r.to == next.tasks[id].status;
      EverInProgressGrows(records, r);
      BirthStays(records, r);
      if BornToWork(records) && db.tasks[id].status == REVIEW {
        ChainsOutsideTodoWorked(records, REVIEW);
      }
    }
  }

  lemma StepRecordsStarts(db: Db, call: Call)
    requires Consistent(db) && StartsRecorded(db)
    ensures StartsRecorded(After(db, call))
  {
    var next := After(db, call);
    forall id | id in next.tasks ensures StartRecorded(next, id) {
      if id in db.tasks {
        StepOnTaskRecordsStart(db, call, id);
      } else {
        StepOnNewTask(db, call, id);
      }
    }
  }

  lemma {:induction false} RunRecordsStarts(db: Db, calls: seq<Call>)
    requires Consistent(db) && StartsRecorded(db)
    ensures Consistent(Run(db, calls)) && StartsRecorded(Run(db, calls))
    decreases |calls|
  {
    if calls != [] {
      StepKeepsConsistency(db, calls[0]);
      StepRecordsStarts(db, calls[0]);
      RunRecordsStarts(After(db, calls[0]), calls[1..]);
    }
  }

  /** In every reachable state, a task born in TODO or IN_PROGRESS that is past TODO has its start
      time set and an entry into IN_PROGRESS after its last TODO. */
  lemma PastTodoHasStarted(calls: seq<Call>, id: Id)
    requires id in Run(EMPTY, calls).tasks
    requires var db := Run(EMPTY, calls);
             BornToWork(HistoryOf(db, id)) && db.tasks[id].status in {IN_PROGRESS, REVIEW, DONE}
    ensures var db := Run(EMPTY, calls);
            db.tasks[id].startedAt.Some? && WorkedSinceTodo(HistoryOf(db, id))
  {
    assert forall k :: HistoryOf(EMPTY, k) == [];
    RunRecordsStarts(EMPTY, calls);
    var db := Run(EMPTY, calls);
    ChainsOutsideTodoWorked(HistoryOf(db, id), db.tasks[id].status);
    assert StartRecorded(db, id);
  }

  /** The birth status is the exact condition: a freshly created task meets the rule iff it was
      created in TODO or IN_PROGRESS; a task created in REVIEW or DONE breaks it at once. */
  lemma BirthDecides(db: Db, call: Call)
    requires call.op.Create? && call.op.id !in db.tasks && call.op.id in After(db, call).tasks
    ensures var t := After(db, call).tasks[call.op.id];
            (t.status in {IN_PROGRESS, REVIEW, DONE} ==> t.startedAt.Some?) <==> call.op.status in {TODO, IN_PROGRESS}
  {
  }

  /** Once set, the start time never changes, reopenings included. */
  lemma {:induction false} StartTimeNeverChanges(db: Db, calls: seq<Call>, id: Id)
    requires id in db.tasks && db.tasks[id].startedAt.Some?
    ensures id in Run(db, calls).tasks && Run(db, calls).tasks[id].startedAt == db.tasks[id].startedAt
    decreases |calls|
  {
    if calls != [] {
      StepOnTask(db, calls[0], id);
      StartTimeNeverChanges(After(db, calls[0]), calls[1..], id);
    }
  }

  // ---- How a task gets to DONE ----

  /** The three guarded ways into DONE. */
  predicate MayFinish(db: Db, call: Call, id: Id)
    requires id in db.tasks
  {
    var t := db.tasks[id];
    && Visible(db, id, call.tenant)
    && match call.op
       case Update(k, c, _) =>
         k == id && c.status == Some(DONE) && (t.status == IN_PROGRESS || (t.status == REVIEW && c.resolution.Some? && c.resolution.value != ""))
         && (c.parent.Some? ==> c.parent.value in db.tasks)
       case Resolve(k, _, agent, owners) =>
         k == id && t.status in {IN_PROGRESS, REVIEW}
         && (t.requiresHuman ==> Text.Lower(if agent.Some? then agent.value else "") in owners)
       case Approve(k, resolution, reviewer) =>
         k == id && t.status == REVIEW && resolution != "" && t.assignedTo != Some(reviewer)
       case _ => false
  }

  /** A call finishes an unfinished task exactly when it is one of them and its guard holds. */
  lemma FinishedExactlyWhenAllowed(db: Db, call: Call, id: Id)
    requires id in db.tasks && !db.tasks[id].status.Unknown? && db.tasks[id].status != DONE
    requires db.tasks[id].parent.Some? ==> db.tasks[id].parent.value in db.tasks
    ensures id in After(db, call).tasks
    ensures After(db, call).tasks[id].status == DONE <==> MayFinish(db, call, id)
  {
    StepOnTask(db, call, id);
    if call.op.Reject? && After(db, call) != db {
      var t := db.tasks[call.op.id];
      var moved := MoveTo(db, call.op.id, t.(status := IN_PROGRESS), Some(call.op.reviewer), call.op.reason);
      SubtasksAreNew(moved.tasks, call.op.id, t, call.op.reviewer, call.op.requests);
    }
  }
}
