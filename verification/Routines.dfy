/** The routine trigger loop (crm/bridge/bridge_service.py) on top of the task table: due routines
    are looked up once per pass, then each one is turned into a task and advanced, in two separate
    transactions that other writers may come between and the loop may die between. */
module Routines {
  import opened Sequences
  import opened Tasks
  import opened TaskLaws

  type RoutineId = nat

  datatype Routine = Routine(title: string, body: Option<string>, assignedTo: Option<string>, priority: string,
                             tenant: string, active: bool, deleted: bool, nextRun: Time)

  const TRIGGER := "routine-trigger"

  /** A triggered task that blocks its routine: the NOT EXISTS clause of `get_due_routines`. */
  predicate OpenTriggered(t: Task) {
    t.createdBy == Some(TRIGGER) && t.status in {TODO, IN_PROGRESS, REVIEW} && t.deletedAt.None?
  }

  predicate HasOpenTask(db: Db, title: string) {
    exists id :: id in db.tasks && OpenTriggered(db.tasks[id]) && db.tasks[id].title == title
  }

  /** The rows `get_due_routines` selects. */
  predicate IsDue(db: Db, r: Routine, tenant: string, now: Time) {
    r.active && !r.deleted && r.tenant == tenant && r.nextRun <= now && !HasOpenTask(db, r.title)
  }

  // ---- The protocol ----

  /** Where the loop is: asleep, about to create the first task of `due`, or past creating it and
      about to advance its routine. `due` is the list read once at the start of the pass. */
  datatype Loop =
    | Asleep
    | Creating(due: seq<(RoutineId, Routine)>)
    | Advancing(current: RoutineId, rest: seq<(RoutineId, Routine)>)

  datatype State = State(db: Db, routines: map<RoutineId, Routine>, loop: Loop) {
    function Tables(): (Db, map<RoutineId, Routine>) { (db, routines) }
  }

  datatype Step =
    | Look(due: seq<(RoutineId, Routine)>, tenant: string, now: Time)
    | CreateNext(id: Id, at: Time, raised: bool)
    | Advance(nextRun: Time, failed: bool)
    | Die
    | Other(call: Call)

  function TaskFor(r: Routine): Task {
    Task(r.title, r.body, TODO, Some(TRIGGER), r.assignedTo, r.priority, None, false, None, None, None, None, r.tenant)
  }

  function Next(s: State, step: Step): State {
    match step
    case Look(due, _, _) => if s.loop.Asleep? then s.(loop := Creating(due)) else s
    case CreateNext(id, _, raised) =>
      if !s.loop.Creating? then s
      else if s.loop.due == [] then s.(loop := Asleep)
      else
        var (rid, r) := s.loop.due[0];
        var (db, reply) := CreateSpec(s.db, id, TaskFor(r));
        if raised || reply != Ok then s.(loop := Creating(s.loop.due[1..]))
        else State(db, s.routines, Advancing(rid, s.loop.due[1..]))
    case Advance(nextRun, failed) =>
      if !s.loop.Advancing? then s
      else if failed || s.loop.current !in s.routines then s.(loop := Creating(s.loop.rest))
      else
        s.(routines := s.routines[s.loop.current := s.routines[s.loop.current].(nextRun := nextRun)],
           loop := Creating(s.loop.rest))
    case Die => s.(loop := Asleep)
    case Other(call) => s.(db := After(s.db, call))
  }

  function RunSteps(s: State, steps: seq<Step>): State
    decreases |steps|
  {
    if steps == [] then s else RunSteps(Next(s, steps[0]), steps[1..])
  }

  // ---- What the other writers may do ----

  /** Nobody else signs as the trigger, renames a triggered task, or reopens a finished one. */
  predicate Respectful(db: Db, call: Call) {
    match call.op
    case Create(_, _, _, _, createdBy, _, _, _, _) => createdBy != Some(TRIGGER)
    case Update(id, c, _) =>
      && c.createdBy != Some(TRIGGER)
      && (id in db.tasks && db.tasks[id].createdBy == Some(TRIGGER) ==>
            && c.title.None?
            && !(db.tasks[id].status == DONE && c.status == Some(TODO)))
    case Reject(_, _, reviewer, _) => reviewer != TRIGGER
    case _ => true
  }

  /** The rows a look-up may return: due ones of the table, each once, titles being unique. */
  predicate GoodLook(s: State, due: seq<(RoutineId, Routine)>, tenant: string, now: Time) {
    && (forall k :: 0 <= k < |due| ==> due[k].0 in s.routines && s.routines[due[k].0] == due[k].1)
    && (forall k :: 0 <= k < |due| ==> IsDue(s.db, due[k].1, tenant, now))
    && (forall j, k :: 0 <= j < k < |due| ==> due[j].0 != due[k].0)
  }

  predicate DistinctTitles(routines: map<RoutineId, Routine>) {
    forall a, b :: a in routines && b in routines && a != b ==> routines[a].title != routines[b].title
  }

  predicate GoodStep(s: State, step: Step) {
    match step
    case Look(due, tenant, now) => GoodLook(s, due, tenant, now)
    case Other(call) => Respectful(s.db, call)
    case _ => true
  }

  predicate GoodRun(s: State, steps: seq<Step>)
    decreases |steps|
  {
    steps == [] || (GoodStep(s, steps[0]) && GoodRun(Next(s, steps[0]), steps[1..]))
  }

  // ---- The invariant ----

  /** At most one open triggered task per title. */
  ghost predicate OneOpenPerTitle(db: Db) {
    forall a, b | a in db.tasks && b in db.tasks && OpenTriggered(db.tasks[a]) && OpenTriggered(db.tasks[b])
      :: db.tasks[a].title == db.tasks[b].title ==> a == b
  }

  /** The routines still to be handled have distinct titles, none of which has an open task. */
  ghost predicate Clear(db: Db, due: seq<(RoutineId, Routine)>) {
    && (forall j, k :: 0 <= j < k < |due| ==> due[j].1.title != due[k].1.title)
    && (forall k :: 0 <= k < |due| ==> !HasOpenTask(db, due[k].1.title))
  }

  function Pending(loop: Loop): seq<(RoutineId, Routine)> {
    match loop
    case Asleep => []
    case Creating(due) => due
    case Advancing(_, rest) => rest
  }

  ghost predicate Safe(s: State) {
    OneOpenPerTitle(s.db) && DistinctTitles(s.routines) && Clear(s.db, Pending(s.loop))
  }

  /** Any open triggered task after a respectful call was open before, under the same title. */
  lemma RespectfulOpensNothing(db: Db, call: Call, id: Id)
    requires Respectful(db, call)
    requires id in After(db, call).tasks && OpenTriggered(After(db, call).tasks[id])
    ensures id in db.tasks && OpenTriggered(db.tasks[id]) && db.tasks[id].title == After(db, call).tasks[id].title
  {
    var next := After(db, call);
    match call.op
    case Reject(parent, reason, reviewer, requests) =>
      if next != db {
        var t := db.tasks[parent];
        var moved := MoveTo(db, parent, t.(status := IN_PROGRESS), Some(reviewer), reason);
        SubtasksAreNew(moved.tasks, parent, t, reviewer, requests);
      }
    case _ =>
  }

  lemma OtherStepIsSafe(s: State, call: Call)
    requires Safe(s) && Respectful(s.db, call)
    ensures Safe(Next(s, Other(call)))
  {
    var next := After(s.db, call);
    forall id | id in next.tasks && OpenTriggered(next.tasks[id])
      ensures id in s.db.tasks && OpenTriggered(s.db.tasks[id]) && s.db.tasks[id].title == next.tasks[id].title
    {
      RespectfulOpensNothing(s.db, call, id);
    }
  }

  lemma CreateStepIsSafe(s: State, id: Id, at: Time, raised: bool)
    requires Safe(s)
    ensures Safe(Next(s, CreateNext(id, at, raised)))
  {
  }

  lemma LookStepIsSafe(s: State, due: seq<(RoutineId, Routine)>, tenant: string, now: Time)
    requires Safe(s) && GoodLook(s, due, tenant, now)
    ensures Safe(Next(s, Look(due, tenant, now)))
  {
  }

  lemma StepIsSafe(s: State, step: Step)
    requires Safe(s) && GoodStep(s, step)
    ensures Safe(Next(s, step))
  {
    match step
    case Look(due, tenant, now) => LookStepIsSafe(s, due, tenant, now);
    case CreateNext(id, at, raised) => CreateStepIsSafe(s, id, at, raised);
    case Other(call) => OtherStepIsSafe(s, call);
    case Advance(_, _) =>
    case Die =>
  }

  /** Over any run, wherever the loop dies and whatever respectful writers do in between, a title
      never has two open triggered tasks. */
  lemma {:induction false} NeverTwoOpenTasks(s: State, steps: seq<Step>)
    requires Safe(s) && GoodRun(s, steps)
    ensures OneOpenPerTitle(RunSteps(s, steps).db)
    decreases |steps|
  {
    if steps != [] {
      StepIsSafe(s, steps[0]);
      NeverTwoOpenTasks(Next(s, steps[0]), steps[1..]);
    }
  }

  /** So in every state reachable from an empty task table a title has at most one open triggered task. */
  lemma NeverTwoOpenTasksFromTheStart(routines: map<RoutineId, Routine>, steps: seq<Step>)
    requires DistinctTitles(routines) && GoodRun(State(EMPTY, routines, Asleep), steps)
    ensures OneOpenPerTitle(RunSteps(State(EMPTY, routines, Asleep), steps).db)
  {
    NeverTwoOpenTasks(State(EMPTY, routines, Asleep), steps);
  }

  /** Once its task is created a routine is not due, though the loop die before advancing it; once it
      is advanced it is not due before its next run, whatever becomes of the task. */
  lemma HandledRoutineIsNotDue(s: State, id: Id, at: Time, nextRun: Time, later: Time, db: Db)
    requires s.loop.Creating? && s.loop.due != [] && id !in s.db.tasks
    requires var (rid, r) := s.loop.due[0]; rid in s.routines && s.routines[rid] == r
    ensures var (rid, r) := s.loop.due[0];
            var created := Next(s, CreateNext(id, at, false));
            var advanced := Next(created, Advance(nextRun, false));
            && !IsDue(created.db, created.routines[rid], r.tenant, later)
            && advanced.routines == s.routines[rid := r.(nextRun := nextRun)]
            && (later < nextRun ==> !IsDue(db, advanced.routines[rid], r.tenant, later))
  {
    var (rid, r) := s.loop.due[0];
    var created := Next(s, CreateNext(id, at, false));
    assert OpenTriggered(created.db.tasks[id]) && created.db.tasks[id].title == r.title;
  }

  // ---- Why the assumptions are there ----

  /** Reopening a finished triggered task is safe exactly when its title has no open task by then. */
  lemma ReopeningIff(db: Db, id: Id, changedBy: Option<string>, tenant: string, now: Time)
    requires OneOpenPerTitle(db) && Visible(db, id, tenant) && db.tasks[id].status == DONE
    requires db.tasks[id].createdBy == Some(TRIGGER)
    requires db.tasks[id].parent.Some? ==> db.tasks[id].parent.value in db.tasks
    ensures OneOpenPerTitle(After(db, Call(Update(id, NO_CHANGES.(status := Some(TODO)), changedBy), tenant, now)))
       <==> !HasOpenTask(db, db.tasks[id].title)
  {
    var next := After(db, Call(Update(id, NO_CHANGES.(status := Some(TODO)), changedBy), tenant, now));
    assert id in next.tasks && OpenTriggered(next.tasks[id]) && next.tasks[id].title == db.tasks[id].title;
    if HasOpenTask(db, db.tasks[id].title) {
      var k :| k in db.tasks && OpenTriggered(db.tasks[k]) && db.tasks[k].title == db.tasks[id].title;
      assert k != id && next.tasks[k] == db.tasks[k];
    } else {
      assert forall k :: k in next.tasks && k != id ==> next.tasks[k] == db.tasks[k];
    }
  }

  /** Two routines with one title, whatever else tells them apart, that are due in the same pass both
      get a task. */
  lemma SharedTitleGivesTwo(s: State, a: RoutineId, b: RoutineId, tenant: string, first: Id, second: Id, nextRun: Time, now: Time)
    requires s.loop.Asleep? && a != b && a in s.routines && b in s.routines && s.routines[a].title == s.routines[b].title
    requires IsDue(s.db, s.routines[a], tenant, now) && IsDue(s.db, s.routines[b], tenant, now)
    requires first !in s.db.tasks && second !in s.db.tasks && first != second
    ensures var due := [(a, s.routines[a]), (b, s.routines[b])];
            && GoodLook(s, due, tenant, now)
            && !OneOpenPerTitle(RunSteps(s, [Look(due, tenant, now), CreateNext(first, now, false),
                                             Advance(nextRun, false), CreateNext(second, now, false)]).db)
  {
    var due := [(a, s.routines[a]), (b, s.routines[b])];
    var s1 := Next(s, Look(due, tenant, now));
    var s2 := Next(s1, CreateNext(first, now, false));
    var s3 := Next(s2, Advance(nextRun, false));
    var s4 := Next(s3, CreateNext(second, now, false));
    RunFour(s, Look(due, tenant, now), CreateNext(first, now, false), Advance(nextRun, false), CreateNext(second, now, false));
    assert OpenTriggered(s4.db.tasks[first]) && OpenTriggered(s4.db.tasks[second]);
  }

  lemma RunFour(s: State, a: Step, b: Step, c: Step, d: Step)
    ensures RunSteps(s, [a, b, c, d]) == Next(Next(Next(Next(s, a), b), c), d)
  {
    RunOne(s, a, [b, c, d]);
    RunOne(Next(s, a), b, [c, d]);
    RunOne(Next(Next(s, a), b), c, [d]);
    RunOne(Next(Next(Next(s, a), b), c), d, []);
    assert [a, b, c, d] == [a] + [b, c, d] && [b, c, d] == [b] + [c, d] && [c, d] == [c] + [d] && [d] == [d] + [];
  }

  lemma RunOne(s: State, step: Step, rest: seq<Step>)
    ensures RunSteps(s, [step] + rest) == RunSteps(Next(s, step), rest)
  {
    assert ([step] + rest)[1..] == rest;
  }

  // ---- The pass itself ----

  /** What a pass does for its `k`-th routine: create, then advance (which does nothing when the
      creation failed). Ids, next run times and failures are what the outside world supplies. */
  datatype Outcome = Outcome(id: Id, raised: bool, nextRun: Time)

  function CreateTurn(o: Outcome, now: Time): Step { CreateNext(o.id, now, o.raised) }

  function AdvanceTurn(o: Outcome): Step { Advance(o.nextRun, false) }

  /** The first `steps` steps of a pass. */
  function Plan(outcomes: seq<Outcome>, now: Time, steps: nat): seq<Step> {
    if outcomes == [] || steps == 0 then []
    else if steps == 1 then [CreateTurn(outcomes[0], now)]
    else [CreateTurn(outcomes[0], now), AdvanceTurn(outcomes[0])] + Plan(outcomes[1..], now, steps - 2)
  }

  /** Where they take the tables. */
  function Pass(s: State, outcomes: seq<Outcome>, now: Time, steps: nat): State
    decreases |outcomes|
  {
    if outcomes == [] || steps == 0 then s
    else
      var created := Next(s, CreateTurn(outcomes[0], now));
      if steps == 1 then created
      else Pass(Next(created, AdvanceTurn(outcomes[0])), outcomes[1..], now, steps - 2)
  }

  lemma PassTurn(s: State, outcomes: seq<Outcome>, k: nat, now: Time, steps: nat)
    requires k < |outcomes| && steps > 0
    ensures var created := Next(s, CreateTurn(outcomes[k], now));
            Pass(s, outcomes[k..], now, steps)
            == if steps == 1 then created else Pass(Next(created, AdvanceTurn(outcomes[k])), outcomes[k + 1..], now, steps - 2)
  {
    assert outcomes[k..][1..] == outcomes[k + 1..];
  }

  /** A pass is a run of the protocol, so its states are states of runs. */
  lemma {:induction false} PassIsRun(s: State, outcomes: seq<Outcome>, now: Time, steps: nat)
    ensures Pass(s, outcomes, now, steps) == RunSteps(s, Plan(outcomes, now, steps))
    decreases |outcomes|
  {
    if outcomes != [] && steps > 0 {
      var create, advance := CreateTurn(outcomes[0], now), AdvanceTurn(outcomes[0]);
      if steps == 1 {
        RunOne(s, create, []);
        assert [create] == [create] + [];
      } else {
        var rest := Plan(outcomes[1..], now, steps - 2);
        PassIsRun(Next(Next(s, create), advance), outcomes[1..], now, steps - 2);
        RunOne(s, create, [advance] + rest);
        RunOne(Next(s, create), advance, rest);
        assert [create, advance] + rest == [create] + ([advance] + rest);
      }
    }
  }

  // ---- The whole answer of a pass ----

  /** Which rows a look-up may return, in the words of the query. */
  lemma DueIff(db: Db, r: Routine, tenant: string, now: Time)
    ensures IsDue(db, r, tenant, now) <==>
      && r.active && !r.deleted && r.tenant == tenant && r.nextRun <= now
      && !exists id :: id in db.tasks && db.tasks[id].createdBy == Some("routine-trigger") && db.tasks[id].title == r.title
                       && db.tasks[id].status in {TODO, IN_PROGRESS, REVIEW} && db.tasks[id].deletedAt == None
  {
  }

  /** No creation fails but those said to raise: ids are unused and distinct, as generated ones are. */
  predicate FreshTurns(tasks: map<Id, Task>, outcomes: seq<Outcome>) {
    && (forall k :: 0 <= k < |outcomes| ==> outcomes[k].id !in tasks)
    && (forall j, k :: 0 <= j < k < |outcomes| ==> outcomes[j].id != outcomes[k].id)
  }

  predicate DistinctDue(due: seq<(RoutineId, Routine)>) {
    forall j, k :: 0 <= j < k < |due| ==> due[j].0 != due[k].0
  }

  function CreatedIds(outcomes: seq<Outcome>): set<Id> {
    set k | 0 <= k < |outcomes| && !outcomes[k].raised :: outcomes[k].id
  }

  function CreationRecords(outcomes: seq<Outcome>): seq<Record> {
    if outcomes == [] then []
    else (if outcomes[0].raised then [] else [Record(outcomes[0].id, None, TODO, Some("routine-trigger"), Some("Task created"))])
         + CreationRecords(outcomes[1..])
  }

  /** The task of a routine. */
  predicate IsTriggered(t: Task, r: Routine) {
    && t.title == r.title && t.body == r.body && t.assignedTo == r.assignedTo && t.priority == r.priority && t.tenant == r.tenant
    && t.status == TODO && t.createdBy == Some("routine-trigger") && t.parent == None && !t.requiresHuman
    && t.startedAt == None && t.resolvedAt == None && t.resolution == None && t.deletedAt == None
  }

  predicate TasksTriggered(tasks: map<Id, Task>, next: map<Id, Task>, due: seq<(RoutineId, Routine)>, outcomes: seq<Outcome>)
    requires |due| == |outcomes|
  {
    && next.Keys == tasks.Keys + CreatedIds(outcomes)
    && (forall id :: id in tasks ==> next[id] == tasks[id])
    && (forall k :: 0 <= k < |due| && !outcomes[k].raised ==> outcomes[k].id in next && IsTriggered(next[outcomes[k].id], due[k].1))
  }

  predicate IsHandled(id: RoutineId, due: seq<(RoutineId, Routine)>, outcomes: seq<Outcome>)
    requires |due| == |outcomes|
  {
    exists k :: 0 <= k < |due| && due[k].0 == id && !outcomes[k].raised
  }

  predicate RoutinesAdvanced(routines: map<RoutineId, Routine>, next: map<RoutineId, Routine>,
                             due: seq<(RoutineId, Routine)>, outcomes: seq<Outcome>)
    requires |due| == |outcomes|
  {
    && next.Keys == routines.Keys
    && (forall k :: 0 <= k < |due| && !outcomes[k].raised && due[k].0 in routines ==>
          next[due[k].0] == routines[due[k].0].(nextRun := outcomes[k].nextRun))
    && (forall id :: id in routines && !IsHandled(id, due, outcomes) ==> next[id] == routines[id])
  }

  ghost predicate Handled(s: State, next: State, due: seq<(RoutineId, Routine)>, outcomes: seq<Outcome>)
    requires |due| == |outcomes|
  {
    && TasksTriggered(s.db.tasks, next.db.tasks, due, outcomes)
    && next.db.history == s.db.history + CreationRecords(outcomes)
    && RoutinesAdvanced(s.routines, next.routines, due, outcomes)
  }

  /** One turn: a task and an advanced routine, or nothing at all. */
  predicate TurnDone(s: State, next: State, due: seq<(RoutineId, Routine)>, o: Outcome)
    requires due != []
  {
    var (rid, r) := due[0];
    && next.loop == Creating(due[1..])
    && (o.raised ==> next.db == s.db && next.routines == s.routines)
    && (!o.raised ==>
          && next.db.tasks == s.db.tasks[o.id := TaskFor(r)]
          && next.db.history == s.db.history + [Record(o.id, None, TODO, Some("routine-trigger"), Some("Task created"))]
          && next.routines == if rid in s.routines then s.routines[rid := s.routines[rid].(nextRun := o.nextRun)] else s.routines)
  }

  function Turn(s: State, o: Outcome, now: Time): State {
    Next(Next(s, CreateTurn(o, now)), AdvanceTurn(o))
  }

  lemma TurnAnswer(s: State, due: seq<(RoutineId, Routine)>, o: Outcome, now: Time)
    requires s.loop == Creating(due) && due != [] && o.id !in s.db.tasks
    ensures TurnDone(s, Turn(s, o, now), due, o)
  {
  }

  lemma FreshTurnsTail(tasks: map<Id, Task>, next: map<Id, Task>, outcomes: seq<Outcome>)
    requires outcomes != [] && FreshTurns(tasks, outcomes)
    requires next.Keys == if outcomes[0].raised then tasks.Keys else tasks.Keys + {outcomes[0].id}
    ensures FreshTurns(next, outcomes[1..])
  {
    forall k | 0 <= k < |outcomes[1..]| ensures outcomes[1..][k].id !in next {
      assert outcomes[1..][k] == outcomes[k + 1] && outcomes[0].id != outcomes[k + 1].id;
    }
    forall j, k | 0 <= j < k < |outcomes[1..]| ensures outcomes[1..][j].id != outcomes[1..][k].id {
      assert outcomes[j + 1].id != outcomes[k + 1].id;
    }
  }

  lemma CreatedIdsCons(outcomes: seq<Outcome>)
    requires outcomes != []
    ensures CreatedIds(outcomes) == (if outcomes[0].raised then {} else {outcomes[0].id}) + CreatedIds(outcomes[1..])
  {
    assert forall k :: 0 < k < |outcomes| ==> outcomes[k] == outcomes[1..][k - 1];
    forall id | id in CreatedIds(outcomes[1..]) ensures id in CreatedIds(outcomes) {
      var k :| 0 <= k < |outcomes[1..]| && !outcomes[1..][k].raised && outcomes[1..][k].id == id;
      assert outcomes[k + 1].id == id;
    }
  }

  lemma TriggeredCons(tasks: map<Id, Task>, mid: map<Id, Task>, next: map<Id, Task>,
                      due: seq<(RoutineId, Routine)>, outcomes: seq<Outcome>)
    requires |due| == |outcomes| && due != [] && outcomes[0].id !in tasks
    requires mid == if outcomes[0].raised then tasks else tasks[outcomes[0].id := TaskFor(due[0].1)]
    requires TasksTriggered(mid, next, due[1..], outcomes[1..])
    ensures TasksTriggered(tasks, next, due, outcomes)
  {
    CreatedIdsCons(outcomes);
    forall k | 0 <= k < |due| && !outcomes[k].raised
      ensures outcomes[k].id in next && IsTriggered(next[outcomes[k].id], due[k].1)
    {
      if k == 0 {
        assert outcomes[0].id in mid;
      } else {
        assert outcomes[k] == outcomes[1..][k - 1] && due[k] == due[1..][k - 1];
      }
    }
  }

  lemma IsHandledCons(id: RoutineId, due: seq<(RoutineId, Routine)>, outcomes: seq<Outcome>)
    requires |due| == |outcomes| && due != []
    ensures IsHandled(id, due, outcomes)
       <==> (due[0].0 == id && !outcomes[0].raised) || IsHandled(id, due[1..], outcomes[1..])
  {
    if k :| 0 < k < |due| && due[k].0 == id && !outcomes[k].raised {
      assert due[1..][k - 1] == due[k] && outcomes[1..][k - 1] == outcomes[k];
    }
    if k :| 0 <= k < |due| - 1 && due[1..][k].0 == id && !outcomes[1..][k].raised {
      assert due[k + 1] == due[1..][k] && outcomes[k + 1] == outcomes[1..][k];
    }
  }

  lemma HandledOnce(due: seq<(RoutineId, Routine)>, outcomes: seq<Outcome>)
    requires |due| == |outcomes| && due != [] && DistinctDue(due)
    ensures !IsHandled(due[0].0, due[1..], outcomes[1..])
  {
    forall k | 0 <= k < |due[1..]| ensures due[1..][k].0 != due[0].0 {
      assert due[1..][k] == due[k + 1];
    }
  }

  lemma AdvancedCons(routines: map<RoutineId, Routine>, mid: map<RoutineId, Routine>, next: map<RoutineId, Routine>,
                     due: seq<(RoutineId, Routine)>, outcomes: seq<Outcome>)
    requires |due| == |outcomes| && due != [] && DistinctDue(due)
    requires mid == if outcomes[0].raised || due[0].0 !in routines then routines
                    else routines[due[0].0 := routines[due[0].0].(nextRun := outcomes[0].nextRun)]
    requires RoutinesAdvanced(mid, next, due[1..], outcomes[1..])
    ensures RoutinesAdvanced(routines, next, due, outcomes)
  {
    HandledOnce(due, outcomes);
    forall k | 0 <= k < |due| && !outcomes[k].raised && due[k].0 in routines
      ensures next[due[k].0] == routines[due[k].0].(nextRun := outcomes[k].nextRun)
    {
      if k > 0 {
        assert due[1..][k - 1] == due[k] && outcomes[1..][k - 1] == outcomes[k] && due[0].0 != due[k].0;
      }
    }
    forall id | id in routines && !IsHandled(id, due, outcomes) ensures next[id] == routines[id] {
      IsHandledCons(id, due, outcomes);
      assert mid[id] == routines[id];
    }
  }

  lemma HistoryCons(history: seq<Record>, outcomes: seq<Outcome>)
    requires outcomes != []
    ensures history + CreationRecords(outcomes)
         == (if outcomes[0].raised then history
             else history + [Record(outcomes[0].id, None, TODO, Some("routine-trigger"), Some("Task created"))])
            + CreationRecords(outcomes[1..])
  {
  }

  lemma PassCons(s: State, outcomes: seq<Outcome>, now: Time, steps: nat)
    requires outcomes != [] && steps >= 2
    ensures Pass(s, outcomes, now, steps) == Pass(Turn(s, outcomes[0], now), outcomes[1..], now, steps - 2)
  {
    PassTurn(s, outcomes, 0, now, steps);
    assert outcomes[0..] == outcomes;
  }

  lemma HandledCons(s: State, mid: State, next: State, due: seq<(RoutineId, Routine)>, outcomes: seq<Outcome>)
    requires |due| == |outcomes| && due != [] && DistinctDue(due) && outcomes[0].id !in s.db.tasks
    requires TurnDone(s, mid, due, outcomes[0]) && Handled(mid, next, due[1..], outcomes[1..])
    ensures Handled(s, next, due, outcomes)
  {
    TriggeredCons(s.db.tasks, mid.db.tasks, next.db.tasks, due, outcomes);
    AdvancedCons(s.routines, mid.routines, next.routines, due, outcomes);
    HistoryCons(s.db.history, outcomes);
  }

  lemma NothingHandled(s: State, due: seq<(RoutineId, Routine)>, outcomes: seq<Outcome>)
    requires due == [] && outcomes == []
    ensures Handled(s, s, due, outcomes)
  {
  }

  lemma DistinctDueTail(due: seq<(RoutineId, Routine)>)
    requires due != [] && DistinctDue(due)
    ensures DistinctDue(due[1..])
  {
  }

  /** A complete pass: every due routine whose creation did not raise has its task, one creation record, and
      its next run; the others have nothing, and no other row changes. */
  lemma {:induction false} PassAnswer(s: State, due: seq<(RoutineId, Routine)>, outcomes: seq<Outcome>, now: Time, steps: nat)
    requires |due| == |outcomes| && s.loop == Creating(due) && DistinctDue(due) && FreshTurns(s.db.tasks, outcomes)
    requires steps >= 2 * |outcomes|
    ensures Handled(s, Pass(s, outcomes, now, steps), due, outcomes)
    decreases |outcomes|
  {
    if outcomes == [] {
      NothingHandled(s, due, outcomes);
    } else {
      var mid := Turn(s, outcomes[0], now);
      TurnAnswer(s, due, outcomes[0], now);
      FreshTurnsTail(s.db.tasks, mid.db.tasks, outcomes);
      DistinctDueTail(due);
      PassAnswer(mid, due[1..], outcomes[1..], now, steps - 2);
      PassCons(s, outcomes, now, steps);
      HandledCons(s, mid, Pass(mid, outcomes[1..], now, steps - 2), due, outcomes);
    }
  }

  /** The routine table and the loop body of one pass, on the real task table. */
  class RoutineTable {
    var routines: map<RoutineId, Routine>

    constructor (rows: map<RoutineId, Routine>)
      ensures routines == rows
    {
      routines := rows;
    }

    ghost function At(board: TaskBoard, loop: Loop): State
      reads this, board
    {
      State(board.Snapshot(), routines, loop)
    }

    /** The loop body for the first routine of `due`, stopped between its two transactions when `dies`. */
    method TriggerOne(board: TaskBoard, due: seq<(RoutineId, Routine)>, outcome: Outcome, now: Time, dies: bool)
      requires due != []
      modifies this, board
      ensures var created := Next(old(At(board, Creating(due))), CreateTurn(outcome, now));
              if dies then At(board, created.loop) == created
              else At(board, Creating(due[1..])) == Next(created, AdvanceTurn(outcome))
    {
      var (rid, routine) := due[0];
      var reply := board.CreateTask(outcome.id, routine.title, routine.body, TODO, Some(TRIGGER), routine.assignedTo,
                                    routine.priority, None, false, routine.tenant, now, outcome.raised);
      if !dies && reply == Ok && rid in routines {
        routines := routines[rid := routines[rid].(nextRun := outcome.nextRun)];
      }
    }

    /** One pass over the due list, dying after `steps` steps: the tables end up exactly where that
        many steps of the protocol take them. */
    method TriggerDue(board: TaskBoard, due: seq<(RoutineId, Routine)>, outcomes: seq<Outcome>, now: Time, steps: nat)
      requires |due| == |outcomes|
      modifies this, board
      ensures (board.Snapshot(), routines) == RunSteps(old(At(board, Creating(due))), Plan(outcomes, now, steps)).Tables()
    {
      ghost var start := At(board, Creating(due));
      PassIsRun(start, outcomes, now, steps);
      var k, left := 0, steps;
      while k < |due| && left > 0
        invariant 0 <= k <= |due|
        invariant Pass(At(board, Creating(due[k..])), outcomes[k..], now, left).Tables() == Pass(start, outcomes, now, steps).Tables()
      {
        PassTurn(At(board, Creating(due[k..])), outcomes, k, now, left);
        assert due[k..][1..] == due[k + 1..];
        TriggerOne(board, due[k..], outcomes[k], now, left == 1);
        k, left := k + 1, if left == 1 then 0 else left - 2;
      }
    }
  }
}
