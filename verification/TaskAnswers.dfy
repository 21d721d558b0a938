/** The whole answer of each task call, column by column (robothor/crm/dal.py): which calls go through, what the
    row and the history are then, and that nothing else changes. */
module TaskAnswers {
  import opened Sequences
  import Text
  import opened Tasks

  // ---- The rules as tables ----

  const STATUSES: set<Status> := {TODO, IN_PROGRESS, REVIEW, DONE}

  /** The moves of the board. */
  const EDGES: set<(Status, Status)> := {
    (TODO, IN_PROGRESS),
    (IN_PROGRESS, REVIEW), (IN_PROGRESS, TODO), (IN_PROGRESS, DONE),
    (REVIEW, DONE), (REVIEW, IN_PROGRESS), (REVIEW, TODO),
    (DONE, TODO)}

  predicate NonEmpty(s: Option<string>) {
    s.Some? && s.value != ""
  }

  lemma AllowedIsEdge(current: Status, target: Status)
    ensures target in Allowed(current) <==> (current, target) in EDGES
  {
  }

  /** A live task of the tenant. */
  predicate Live(db: Db, id: Id, tenant: string) {
    id in db.tasks && db.tasks[id].deletedAt == None && db.tasks[id].tenant == tenant
  }

  /** Every task but `ids` is as before, and no other appears. */
  predicate OnlyChanges(db: Db, next: Db, ids: set<Id>) {
    && next.tasks.Keys == db.tasks.Keys + ids
    && forall k :: k in db.tasks && k !in ids ==> next.tasks[k] == db.tasks[k]
  }

  // ---- create_task ----

  lemma CreateAnswer(db: Db, id: Id, title: string, body: Option<string>, status: Status, createdBy: Option<string>,
                     assignedTo: Option<string>, priority: string, parent: Option<Id>, requiresHuman: bool,
                     tenant: string, now: Time)
    ensures var (next, reply) := CreateSpec(db, id, NewTask(title, body, status, createdBy, assignedTo, priority, parent,
                                                            requiresHuman, tenant, now));
            && reply == (if id !in db.tasks && status in STATUSES && (parent.None? || parent.value in db.tasks) then Ok else Refused)
            && (reply != Ok ==> next == db)
            && (reply == Ok ==>
                  && OnlyChanges(db, next, {id})
                  && next.tasks[id] == Task(title, body, status, createdBy, assignedTo, priority, parent, requiresHuman,
                                            next.tasks[id].startedAt, None, None, None, tenant)
                  && next.tasks[id].startedAt == (if status == IN_PROGRESS then Some(now) else None)
                  && next.history == db.history + [Record(id, None, status, if NonEmpty(createdBy) then createdBy else Some("system"),
                                                          Some("Task created"))])
  {
  }

  // ---- update_task ----

  predicate AsksNothing(c: Changes) {
    && c.title == None && c.body == None && c.status == None && c.createdBy == None && c.assignedTo == None
    && c.priority == None && c.parent == None && c.requiresHuman == None && c.resolvedAt == None && c.resolution == None
    && !c.others
  }

  /** The call asks for another status; an empty one counts as none. */
  predicate Moves(t: Task, c: Changes) {
    c.status !in {None, Some(t.status), Some(Unknown(""))}
  }

  predicate MayMove(t: Task, c: Changes)
    requires c.status.Some?
  {
    (t.status, c.status.value) in EDGES && ((t.status, c.status.value) == (REVIEW, DONE) ==> NonEmpty(c.resolution))
  }

  predicate ColumnSet<T(==)>(asked: Option<T>, was: T, now: T) {
    if asked.Some? then now == asked.value else now == was
  }

  predicate OptionalSet<T(==)>(asked: Option<T>, was: Option<T>, now: Option<T>) {
    if asked.Some? then now == asked else now == was
  }

  /** Each column asked for has its new value, every other its old one; a first move to IN_PROGRESS starts the task. */
  predicate RowUpdated(t: Task, c: Changes, now: Time, next: Task) {
    && ColumnSet(c.title, t.title, next.title) && OptionalSet(c.body, t.body, next.body)
    && ColumnSet(c.status, t.status, next.status) && OptionalSet(c.createdBy, t.createdBy, next.createdBy)
    && OptionalSet(c.assignedTo, t.assignedTo, next.assignedTo) && ColumnSet(c.priority, t.priority, next.priority)
    && OptionalSet(c.parent, t.parent, next.parent) && ColumnSet(c.requiresHuman, t.requiresHuman, next.requiresHuman)
    && OptionalSet(c.resolvedAt, t.resolvedAt, next.resolvedAt) && OptionalSet(c.resolution, t.resolution, next.resolution)
    && next.deletedAt == t.deletedAt && next.tenant == t.tenant
    && next.startedAt == (if t.startedAt == None && t.status != IN_PROGRESS && c.status == Some(IN_PROGRESS) then Some(now) else t.startedAt)
  }

  /** The updated row breaks no constraint. */
  predicate Fits(db: Db, t: Task, c: Changes) {
    && (if c.status.Some? then c.status.value in STATUSES else t.status in STATUSES)
    && (var parent := if c.parent.Some? then c.parent else t.parent; parent.None? || parent.value in db.tasks)
  }

  predicate OpenChild(db: Db, id: Id) {
    exists c :: c in db.tasks && db.tasks[c].parent == Some(id) && db.tasks[c].deletedAt == None && db.tasks[c].status != DONE
  }

  lemma UpdateAnswer(db: Db, id: Id, c: Changes, changedBy: Option<string>, tenant: string, now: Time)
    ensures var (next, reply) := UpdateSpec(db, id, c, changedBy, tenant, now);
            if AsksNothing(c) || !Live(db, id, tenant) then (next, reply) == (db, Refused)
            else
              var t := db.tasks[id];
              if Moves(t, c) && !MayMove(t, c) then (next, reply) == (db, Error)
              else if !Fits(db, t, c) then (next, reply) == (db, Refused)
              else
                && OnlyChanges(db, next, {id}) && RowUpdated(t, c, now, next.tasks[id])
                && next.history == db.history
                                   + (if Moves(t, c) then [Record(id, Some(t.status), c.status.value, changedBy, c.resolution)] else [])
                && reply == (if Moves(t, c) && c.status.value in {REVIEW, DONE} && OpenChild(db, id) then OkWithWarning else Ok)
  {
    NothingIff(c);
    if Live(db, id, tenant) {
      var t := db.tasks[id];
      MovesIff(t, c);
      if Moves(t, c) {
        MayMoveIff(t, c);
      }
      FitsIff(db, t, c, StartedAt(t, c, now));
      UpdatedRow(t, c, now);
    }
  }

  lemma NothingIff(c: Changes)
    ensures c == NO_CHANGES <==> AsksNothing(c)
  {
  }

  lemma MovesIff(t: Task, c: Changes)
    ensures AsksFor(c, t.status) <==> Moves(t, c)
  {
  }

  lemma MayMoveIff(t: Task, c: Changes)
    requires c.status.Some?
    ensures ValidTransition(t.status, c.status.value, c.resolution) <==> MayMove(t, c)
  {
    AllowedIsEdge(t.status, c.status.value);
  }

  lemma FitsIff(db: Db, t: Task, c: Changes, started: Option<Time>)
    ensures RowAllowed(db.tasks, Apply(t, c, started)) <==> Fits(db, t, c)
  {
  }

  lemma UpdatedRow(t: Task, c: Changes, now: Time)
    ensures RowUpdated(t, c, now, Apply(t, c, StartedAt(t, c, now)))
  {
  }

  // ---- resolve_task, approve_task, delete_task ----

  /** The row is DONE and resolved, and one record says so. */
  predicate Finished(db: Db, next: Db, id: Id, resolution: string, author: Option<string>, now: Time)
    requires id in db.tasks
  {
    && OnlyChanges(db, next, {id})
    && next.tasks[id] == db.tasks[id].(status := DONE, resolvedAt := Some(now), resolution := Some(resolution))
    && next.history == db.history + [Record(id, Some(db.tasks[id].status), DONE, author, Some(resolution))]
  }

  lemma ResolveAnswer(db: Db, id: Id, resolution: string, agent: Option<string>, owners: set<string>, tenant: string, now: Time)
    ensures var (next, reply) := ResolveSpec(db, id, resolution, agent, owners, tenant, now);
            if !Live(db, id, tenant) then (next, reply) == (db, Refused)
            else
              var t := db.tasks[id];
              if t.status in {IN_PROGRESS, REVIEW} && (t.requiresHuman ==> Text.Lower(if agent.Some? then agent.value else "") in owners)
              then reply == Ok && Finished(db, next, id, resolution, if NonEmpty(agent) then agent else Some("system"), now)
              else (next, reply) == (db, Error)
  {
  }

  lemma ApproveAnswer(db: Db, id: Id, resolution: string, reviewer: string, tenant: string, now: Time)
    ensures var (next, reply) := ApproveSpec(db, id, resolution, reviewer, tenant, now);
            if !Live(db, id, tenant) then (next, reply) == (db, Refused)
            else
              var t := db.tasks[id];
              if t.status == REVIEW && t.assignedTo != Some(reviewer) && resolution != ""
              then reply == Ok && Finished(db, next, id, resolution, Some(reviewer), now)
              else (next, reply) == (db, Error)
  {
  }

  lemma DeleteAnswer(db: Db, id: Id, tenant: string, now: Time)
    ensures var (next, reply) := DeleteSpec(db, id, tenant, now);
            if !Live(db, id, tenant) then (next, reply) == (db, Refused)
            else
              && reply == Ok && OnlyChanges(db, next, {id}) && next.history == db.history
              && next.tasks[id] == db.tasks[id].(deletedAt := Some(now))
  {
  }

  // ---- reject_task ----

  function RequestIds(requests: seq<(Id, string)>): set<Id> {
    set k | 0 <= k < |requests| :: requests[k].0
  }

  predicate FreshIds(tasks: map<Id, Task>, requests: seq<(Id, string)>) {
    && (forall k :: 0 <= k < |requests| ==> requests[k].0 !in tasks)
    && (forall j, k :: 0 <= j < k < |requests| ==> requests[j].0 != requests[k].0)
  }

  /** What a change request becomes: an urgent task of the rejected one's assignee. */
  predicate IsRequest(s: Task, parent: Id, t: Task, request: string, reviewer: string) {
    && s.title == request && s.body == Some("Change requested by " + reviewer) && s.status == TODO
    && s.createdBy == Some(reviewer) && s.assignedTo == t.assignedTo && s.priority == "high" && s.parent == Some(parent)
    && !s.requiresHuman && s.startedAt == None && s.resolvedAt == None && s.resolution == None && s.deletedAt == None
    && s.tenant == t.tenant
  }

  predicate RequestsAdded(tasks: map<Id, Task>, next: map<Id, Task>, parent: Id, t: Task, reviewer: string, requests: seq<(Id, string)>) {
    && next.Keys == tasks.Keys + RequestIds(requests)
    && (forall id :: id in tasks ==> next[id] == tasks[id])
    && (forall k :: 0 <= k < |requests| ==> IsRequest(next[requests[k].0], parent, t, requests[k].1, reviewer))
  }

  lemma RequestIdsCons(first: (Id, string), rest: seq<(Id, string)>)
    ensures RequestIds([first] + rest) == {first.0} + RequestIds(rest)
  {
    var all := [first] + rest;
    assert all[0] == first;
    assert forall k :: 0 <= k < |rest| ==> all[k + 1] == rest[k];
  }

  lemma FreshIdsCons(tasks: map<Id, Task>, row: Task, first: (Id, string), rest: seq<(Id, string)>)
    ensures FreshIds(tasks, [first] + rest) <==> first.0 !in tasks && FreshIds(tasks[first.0 := row], rest)
  {
    var all := [first] + rest;
    if FreshIds(tasks, all) {
      assert all[0].0 !in tasks;
      forall k | 0 <= k < |rest| ensures rest[k].0 !in tasks[first.0 := row] {
        assert all[k + 1].0 != all[0].0 && all[k + 1].0 !in tasks;
      }
      forall j, k | 0 <= j < k < |rest| ensures rest[j].0 != rest[k].0 {
        assert all[j + 1].0 != all[k + 1].0;
      }
    }
    if first.0 !in tasks && FreshIds(tasks[first.0 := row], rest) {
      forall k | 0 < k < |all| ensures all[k].0 !in tasks && all[k].0 != first.0 {
        assert all[k] == rest[k - 1] && rest[k - 1].0 !in tasks[first.0 := row];
      }
    }
  }

  /** All requests become tasks, or the first clashing id stops the call. */
  lemma {:induction false} SubtasksAnswer(tasks: map<Id, Task>, parent: Id, t: Task, reviewer: string, requests: seq<(Id, string)>)
    ensures var added := WithSubtasks(tasks, parent, t, reviewer, requests);
            && (added.Some? <==> FreshIds(tasks, requests))
            && (added.Some? ==> RequestsAdded(tasks, added.value, parent, t, reviewer, requests))
    decreases |requests|
  {
    if requests != [] {
      var first, rest := requests[0], requests[1..];
      var row := Subtask(parent, t, first.1, reviewer);
      assert requests == [first] + rest;
      SubtasksAnswer(tasks[first.0 := row], parent, t, reviewer, rest);
      FreshIdsCons(tasks, row, first, rest);
      RequestIdsCons(first, rest);
    }
  }

  /** A rejection moves the task back, records why, and adds one task per change request, all of it or nothing. */
  lemma RejectAnswer(db: Db, id: Id, reason: string, reviewer: string, requests: seq<(Id, string)>, tenant: string)
    ensures var (next, reply) := RejectSpec(db, id, reason, reviewer, requests, tenant);
            if !Live(db, id, tenant) then (next, reply) == (db, Refused)
            else
              var t := db.tasks[id];
              if t.status != REVIEW || reason == "" then (next, reply) == (db, Error)
              else if !FreshIds(db.tasks, requests) then (next, reply) == (db, Refused)
              else
                && reply == Ok
                && RequestsAdded(db.tasks[id := t.(status := IN_PROGRESS)], next.tasks, id, t, reviewer, requests)
                && next.history == db.history + [Record(id, Some(REVIEW), IN_PROGRESS, Some(reviewer), Some(reason))]
  {
    if id in db.tasks {
      var t := db.tasks[id];
      var moved := db.tasks[id := t.(status := IN_PROGRESS)];
      assert moved.Keys == db.tasks.Keys;
      SubtasksAnswer(moved, id, t, reviewer, requests);
      assert FreshIds(moved, requests) <==> FreshIds(db.tasks, requests);
    }
  }
}
