/** The task table and its append-only history (robothor/crm/dal.py). Each entry point is one
    transaction: a value-level specification (`CreateSpec` … `DeleteSpec`) and a method of
    `TaskBoard` that updates the two tables and is proved to match it. */
module Tasks {
  import opened Sequences
  import Text

  type Id = nat
  type Time = int

  /** The four statuses of the `valid_status` constraint, and any other string. */
  datatype Status = TODO | IN_PROGRESS | REVIEW | DONE | Unknown(name: string)

  datatype Task = Task(
    title: string,
    body: Option<string>,
    status: Status,
    createdBy: Option<string>,
    assignedTo: Option<string>,
    priority: string,
    parent: Option<Id>,
    requiresHuman: bool,
    startedAt: Option<Time>,
    resolvedAt: Option<Time>,
    resolution: Option<string>,
    deletedAt: Option<Time>,
    tenant: string)

  datatype Record = Record(
    taskId: Id,
    from: Option<Status>,
    to: Status,
    changedBy: Option<string>,
    reason: Option<string>)

  datatype Db = Db(tasks: map<Id, Task>, history: seq<Record>)

  /** What a caller gets back: False, True (or the new id), the warning dict, or the error dict. */
  datatype Reply = Refused | Ok | OkWithWarning | Error

  // ---- Rules ----

  /** `VALID_TRANSITIONS` */
  function Allowed(current: Status): set<Status> {
    match current
    case TODO => {IN_PROGRESS}
    case IN_PROGRESS => {REVIEW, TODO, DONE}
    case REVIEW => {DONE, IN_PROGRESS, TODO}
    case DONE => {TODO}
    case Unknown(_) => {}
  }

  /** `_validate_transition` */
  predicate ValidTransition(current: Status, target: Status, resolution: Option<string>) {
    && target in Allowed(current)
    && !(target == DONE && current == REVIEW && (resolution.None? || resolution.value == ""))
  }

  /** A row the queries see: `id = … AND deleted_at IS NULL AND tenant_id = …` */
  predicate Visible(db: Db, id: Id, tenant: string) {
    id in db.tasks && db.tasks[id].deletedAt.None? && db.tasks[id].tenant == tenant
  }

  /** The constraints an INSERT or UPDATE can violate; a violation raises and rolls back. */
  predicate RowAllowed(tasks: map<Id, Task>, task: Task) {
    !task.status.Unknown? && (task.parent.Some? ==> task.parent.value in tasks)
  }

  /** Children that are neither deleted nor DONE. */
  predicate HasOpenSubtask(db: Db, id: Id) {
    exists c :: c in db.tasks && db.tasks[c].parent == Some(id) && db.tasks[c].deletedAt.None? && db.tasks[c].status != DONE
  }

  // ---- create_task ----

  function NewTask(title: string, body: Option<string>, status: Status, createdBy: Option<string>,
                   assignedTo: Option<string>, priority: string, parent: Option<Id>, requiresHuman: bool,
                   tenant: string, now: Time): Task
  {
    Task(title, body, status, createdBy, assignedTo, priority, parent, requiresHuman,
         if status == IN_PROGRESS then Some(now) else None, None, None, None, tenant)
  }

  function OrSystem(agent: Option<string>): Option<string> {
    if agent.Some? && agent.value != "" then agent else Some("system")
  }

  function CreateSpec(db: Db, id: Id, task: Task): (Db, Reply) {
    if id in db.tasks || !RowAllowed(db.tasks, task) then (db, Refused)
    else
      (Db(db.tasks[id := task],
          db.history + [Record(id, None, task.status, OrSystem(task.createdBy), Some("Task created"))]), Ok)
  }

  // ---- update_task ----

  /** The keyword arguments; `None` leaves a column alone. `others` says that a column outside this model
      (due date, person, company, tags) is set. */
  datatype Changes = Changes(
    title: Option<string>,
    body: Option<string>,
    status: Option<Status>,
    createdBy: Option<string>,
    assignedTo: Option<string>,
    priority: Option<string>,
    parent: Option<Id>,
    requiresHuman: Option<bool>,
    resolvedAt: Option<Time>,
    resolution: Option<string>,
    others: bool)

  const NO_CHANGES := Changes(None, None, None, None, None, None, None, None, None, None, false)

  function Apply(t: Task, c: Changes, started: Option<Time>): Task {
    t.(title := if c.title.Some? then c.title.value else t.title,
       body := if c.body.Some? then c.body else t.body,
       status := if c.status.Some? then c.status.value else t.status,
       createdBy := if c.createdBy.Some? then c.createdBy else t.createdBy,
       assignedTo := if c.assignedTo.Some? then c.assignedTo else t.assignedTo,
       priority := if c.priority.Some? then c.priority.value else t.priority,
       parent := if c.parent.Some? then c.parent else t.parent,
       requiresHuman := if c.requiresHuman.Some? then c.requiresHuman.value else t.requiresHuman,
       resolvedAt := if c.resolvedAt.Some? then c.resolvedAt else t.resolvedAt,
       resolution := if c.resolution.Some? then c.resolution else t.resolution,
       startedAt := started)
  }

  /** A status change is asked for; the empty string is falsy and skips every check before the UPDATE. */
  predicate AsksFor(c: Changes, current: Status) {
    c.status.Some? && c.status.value != Unknown("") && c.status.value != current
  }

  function StartedAt(t: Task, c: Changes, now: Time): Option<Time> {
    if AsksFor(c, t.status) && c.status.value == IN_PROGRESS && t.startedAt.None? then Some(now) else t.startedAt
  }

  function UpdateSpec(db: Db, id: Id, c: Changes, changedBy: Option<string>, tenant: string, now: Time): (Db, Reply) {
    if c == NO_CHANGES || !Visible(db, id, tenant) then (db, Refused)
    else
      var t := db.tasks[id];
      if AsksFor(c, t.status) && !ValidTransition(t.status, c.status.value, c.resolution) then (db, Error)
      else
        var updated := Apply(t, c, StartedAt(t, c, now));
        if !RowAllowed(db.tasks, updated) then (db, Refused)
        else if !AsksFor(c, t.status) then (db.(tasks := db.tasks[id := updated]), Ok)
        else
          (Db(db.tasks[id := updated],
              db.history + [Record(id, Some(t.status), updated.status, changedBy, c.resolution)]),
           if updated.status in {REVIEW, DONE} && HasOpenSubtask(db, id) then OkWithWarning else Ok)
  }

  // ---- resolve_task, approve_task, reject_task, delete_task ----

  function MoveTo(db: Db, id: Id, t: Task, changedBy: Option<string>, reason: string): Db
    requires id in db.tasks
  {
    Db(db.tasks[id := t], db.history + [Record(id, Some(db.tasks[id].status), t.status, changedBy, Some(reason))])
  }

  /** `owners` holds the lower-cased names that may close a task marked `requires_human`. */
  function ResolveSpec(db: Db, id: Id, resolution: string, agent: Option<string>, owners: set<string>,
                       tenant: string, now: Time): (Db, Reply)
  {
    if !Visible(db, id, tenant) then (db, Refused)
    else
      var t := db.tasks[id];
      if t.status !in {IN_PROGRESS, REVIEW} then (db, Error)
      else if t.requiresHuman && Text.Lower(if agent.Some? then agent.value else "") !in owners then (db, Error)
      else
        (MoveTo(db, id, t.(status := DONE, resolvedAt := Some(now), resolution := Some(resolution)),
                OrSystem(agent), resolution), Ok)
  }

  function ApproveSpec(db: Db, id: Id, resolution: string, reviewer: string, tenant: string, now: Time): (Db, Reply) {
    if !Visible(db, id, tenant) then (db, Refused)
    else
      var t := db.tasks[id];
      if t.status != REVIEW || Some(reviewer) == t.assignedTo || resolution == "" then (db, Error)
      else
        (MoveTo(db, id, t.(status := DONE, resolvedAt := Some(now), resolution := Some(resolution)),
                Some(reviewer), resolution), Ok)
  }

  function Subtask(parent: Id, t: Task, request: string, reviewer: string): Task {
    Task(request, Some("Change requested by " + reviewer), TODO, Some(reviewer), t.assignedTo, "high",
         Some(parent), false, None, None, None, None, t.tenant)
  }

  /** One subtask per change request; a clash of ids raises. */
  function WithSubtasks(tasks: map<Id, Task>, parent: Id, t: Task, reviewer: string,
                        requests: seq<(Id, string)>): Option<map<Id, Task>>
    decreases |requests|
  {
    if requests == [] then Some(tasks)
    else
      var (id, request) := requests[0];
      if id in tasks then None
      else WithSubtasks(tasks[id := Subtask(parent, t, request, reviewer)], parent, t, reviewer, requests[1..])
  }

  function RejectSpec(db: Db, id: Id, reason: string, reviewer: string, requests: seq<(Id, string)>,
                      tenant: string): (Db, Reply)
  {
    if !Visible(db, id, tenant) then (db, Refused)
    else
      var t := db.tasks[id];
      if t.status != REVIEW || reason == "" then (db, Error)
      else
        var moved := MoveTo(db, id, t.(status := IN_PROGRESS), Some(reviewer), reason);
        match WithSubtasks(moved.tasks, id, t, reviewer, requests)
        case Some(tasks) => (moved.(tasks := tasks), Ok)
        case None => (db, Refused)
  }

  function DeleteSpec(db: Db, id: Id, tenant: string, now: Time): (Db, Reply) {
    if !Visible(db, id, tenant) then (db, Refused)
    else (db.(tasks := db.tasks[id := db.tasks[id].(deletedAt := Some(now))]), Ok)
  }

  // ---- The tables, updated in place ----

  class TaskBoard {
    var tasks: map<Id, Task>
    var history: seq<Record>

    function Snapshot(): Db
      reads this
    {
      Db(tasks, history)
    }

    constructor ()
      ensures Snapshot() == Db(map[], [])
    {
      tasks, history := map[], [];
    }

    /** `fails` says that the database raised on the write or the commit; every except branch rolls back. */
    method CreateTask(id: Id, title: string, body: Option<string>, status: Status, createdBy: Option<string>,
                      assignedTo: Option<string>, priority: string, parent: Option<Id>, requiresHuman: bool,
                      tenant: string, now: Time, fails: bool) returns (reply: Reply)
      modifies this
      ensures var outcome := CreateSpec(old(Snapshot()), id,
                NewTask(title, body, status, createdBy, assignedTo, priority, parent, requiresHuman, tenant, now));
              if fails then Snapshot() == old(Snapshot()) && reply == (if outcome.1 == Error then Error else Refused)
              else (Snapshot(), reply) == outcome
    {
      var started := if status == IN_PROGRESS then Some(now) else None;
      var row := Task(title, body, status, createdBy, assignedTo, priority, parent, requiresHuman,
                      started, None, None, None, tenant);
      if fails || id in tasks || !RowAllowed(tasks, row) {
        return Refused;
      }
      tasks := tasks[id := row];
      history := history + [Record(id, None, status, OrSystem(createdBy), Some("Task created"))];
      return Ok;
    }

    method UpdateTask(id: Id, changes: Changes, changedBy: Option<string>, tenant: string, now: Time, fails: bool)
      returns (reply: Reply)
      modifies this
      ensures var outcome := UpdateSpec(old(Snapshot()), id, changes, changedBy, tenant, now);
              if fails then Snapshot() == old(Snapshot()) && reply == (if outcome.1 == Error then Error else Refused)
              else (Snapshot(), reply) == outcome
    {
      if changes == NO_CHANGES {
        return Refused;
      }
      if !Visible(Snapshot(), id, tenant) {
        return Refused;
      }
      var row := tasks[id];
      var current := row.status;
      var started := row.startedAt;
      var warning := false;
      var moves := changes.status.Some? && changes.status.value != Unknown("") && current != changes.status.value;
      if moves {
        if !ValidTransition(current, changes.status.value, changes.resolution) {
          return Error;
        }
        if changes.status.value == IN_PROGRESS && started.None? {
          started := Some(now);
        }
        if changes.status.value in {REVIEW, DONE} {
          warning := HasOpenSubtask(Snapshot(), id);
        }
      }
      row := Apply(row, changes, started);
      if fails || !RowAllowed(tasks, row) {
        return Refused;
      }
      tasks := tasks[id := row];
      if moves {
        history := history + [Record(id, Some(current), changes.status.value, changedBy, changes.resolution)];
      }
      return if warning then OkWithWarning else Ok;
    }

    method ResolveTask(id: Id, resolution: string, agent: Option<string>, owners: set<string>, tenant: string,
                       now: Time, fails: bool) returns (reply: Reply)
      modifies this
      ensures var outcome := ResolveSpec(old(Snapshot()), id, resolution, agent, owners, tenant, now);
              if fails then Snapshot() == old(Snapshot()) && reply == (if outcome.1 == Error then Error else Refused)
              else (Snapshot(), reply) == outcome
    {
      if !Visible(Snapshot(), id, tenant) {
        return Refused;
      }
      var row := tasks[id];
      if row.status != IN_PROGRESS && row.status != REVIEW {
        return Error;
      }
      if row.requiresHuman {
        var caller := Text.Lower(if agent.Some? then agent.value else "");
        if caller !in owners {
          return Error;
        }
      }
      if fails {
        return Refused;
      }
      tasks := tasks[id := row.(status := DONE, resolvedAt := Some(now), resolution := Some(resolution))];
      history := history + [Record(id, Some(row.status), DONE, OrSystem(agent), Some(resolution))];
      return Ok;
    }

    method ApproveTask(id: Id, resolution: string, reviewer: string, tenant: string, now: Time, fails: bool)
      returns (reply: Reply)
      modifies this
      ensures var outcome := ApproveSpec(old(Snapshot()), id, resolution, reviewer, tenant, now);
              if fails then Snapshot() == old(Snapshot()) && reply == (if outcome.1 == Error then Error else Refused)
              else (Snapshot(), reply) == outcome
    {
      if !Visible(Snapshot(), id, tenant) {
        return Refused;
      }
      var row := tasks[id];
      if row.status != REVIEW {
        return Error;
      }
      if Some(reviewer) == row.assignedTo {
        return Error;
      }
      if resolution == "" {
        return Error;
      }
      if fails {
        return Refused;
      }
      tasks := tasks[id := row.(status := DONE, resolvedAt := Some(now), resolution := Some(resolution))];
      history := history + [Record(id, Some(REVIEW), DONE, Some(reviewer), Some(resolution))];
      return Ok;
    }

    method RejectTask(id: Id, reason: string, reviewer: string, requests: seq<(Id, string)>, tenant: string, fails: bool)
      returns (reply: Reply)
      modifies this
      ensures var outcome := RejectSpec(old(Snapshot()), id, reason, reviewer, requests, tenant);
              if fails then Snapshot() == old(Snapshot()) && reply == (if outcome.1 == Error then Error else Refused)
              else (Snapshot(), reply) == outcome
    {
      if !Visible(Snapshot(), id, tenant) {
        return Refused;
      }
      var row := tasks[id];
      if row.status != REVIEW {
        return Error;
      }
      if reason == "" {
        return Error;
      }
      var before, recorded := tasks, history;
      tasks := tasks[id := row.(status := IN_PROGRESS)];
      history := history + [Record(id, Some(REVIEW), IN_PROGRESS, Some(reviewer), Some(reason))];
      ghost var moved := tasks;
      var i := 0;
      while i < |requests|
        invariant 0 <= i <= |requests|
        invariant history == recorded + [Record(id, Some(REVIEW), IN_PROGRESS, Some(reviewer), Some(reason))]
        invariant WithSubtasks(tasks, id, row, reviewer, requests[i..]) == WithSubtasks(moved, id, row, reviewer, requests)
      {
        var (subtask, request) := requests[i];
        if subtask in tasks {
          tasks, history := before, recorded;
          return Refused;
        }
        tasks := tasks[subtask := Subtask(id, row, request, reviewer)];
        i := i + 1;
      }
      if fails {
        tasks, history := before, recorded;
        return Refused;
      }
      return Ok;
    }

    method DeleteTask(id: Id, tenant: string, now: Time, fails: bool) returns (reply: Reply)
      modifies this
      ensures var outcome := DeleteSpec(old(Snapshot()), id, tenant, now);
              if fails then Snapshot() == old(Snapshot()) && reply == (if outcome.1 == Error then Error else Refused)
              else (Snapshot(), reply) == outcome
    {
      if fails || !Visible(Snapshot(), id, tenant) {
        return Refused;
      }
      tasks := tasks[id := tasks[id].(deletedAt := Some(now))];
      return Ok;
    }
  }
}
