/** The migration runner (robothor/db/migrate.py): pending files are executed in order, each in one
    transaction with the row that records it. */
module Migrations {
  import opened Sequences

  type Version = string

  /** A discovered file. `ownCommit`: its SQL commits for itself before the runner records it.
      `backfill`: versions its SQL records on its own. */
  datatype Script = Script(version: Version, filename: string, checksum: string, ownCommit: bool, backfill: set<Version>)

  /** A row of `schema_migrations`; backfilled rows carry no checksum. */
  datatype Record = Record(filename: string, checksum: Option<string>)

  /** `ran` is the history of file executions whose effect was committed. */
  datatype Db = Db(recorded: map<Version, Record>, ran: seq<Script>)

  /** How the database takes a file: all is well; its SQL fails; what follows its SQL fails before the record
      takes effect; or after it does. The record of a file that has committed for itself takes effect at once, as
      no transaction is open any more, and the commit of any other may take effect though its reply is lost. */
  datatype Outcome = Fine | SqlFails | RecordFails | FailsRecorded

  datatype Reply = Applied(versions: seq<Version>) | Raised(version: Version)

  // ---- One file ----

  function Backfilled(recorded: map<Version, Record>, s: Script): map<Version, Record> {
    map v | v in recorded.Keys + s.backfill :: if v in recorded then recorded[v] else Record("", None)
  }

  /** The insert does nothing on a version already recorded. */
  function Recorded(recorded: map<Version, Record>, s: Script): map<Version, Record> {
    if s.version in recorded then recorded else recorded[s.version := Record(s.filename, Some(s.checksum))]
  }

  predicate GetsRecorded(o: Outcome) { o == Fine || o == FailsRecorded }

  /** One turn of the loop: SQL, record, commit; a failure rolls back what was not committed. */
  function Execute(db: Db, s: Script, o: Outcome): Db {
    match o
    case Fine | FailsRecorded => Db(Recorded(Backfilled(db.recorded, s), s), db.ran + [s])
    case SqlFails => db
    case RecordFails => if s.ownCommit then Db(Backfilled(db.recorded, s), db.ran + [s]) else db
  }

  // ---- apply ----

  function Wanted(recorded: map<Version, Record>, version: Version): Script -> bool {
    (s: Script) => s.version !in recorded && (version == "" || s.version == version)
  }

  function Pending(files: seq<Script>, recorded: map<Version, Record>, version: Version): seq<Script> {
    Filter(files, Wanted(recorded, version))
  }

  function Versions(files: seq<Script>): (r: seq<Version>)
    ensures |r| == |files| && forall k :: 0 <= k < |files| ==> r[k] == files[k].version
  {
    seq(|files|, k requires 0 <= k < |files| => files[k].version)
  }

  function ApplyAll(db: Db, todo: seq<Script>, outcome: Script -> Outcome): (r: (Db, Option<Version>))
    decreases |todo|
  {
    if todo == [] then (db, None)
    else if outcome(todo[0]) == Fine then ApplyAll(Execute(db, todo[0], Fine), todo[1..], outcome)
    else (Execute(db, todo[0], outcome(todo[0])), Some(todo[0].version))
  }

  /** The whole call; the version filter is off when it is empty. */
  function Apply(db: Db, files: seq<Script>, version: Version, dryRun: bool, outcome: Script -> Outcome): (Db, Reply) {
    var todo := Pending(files, db.recorded, version);
    if dryRun then (db, Applied(Versions(todo)))
    else
      var (after, failed) := ApplyAll(db, todo, outcome);
      (after, if failed.Some? then Raised(failed.value) else Applied(Versions(todo)))
  }

  datatype State = IsPending | IsApplied | Drift

  function StateOf(recorded: map<Version, Record>, s: Script): State {
    if s.version !in recorded then IsPending
    else
      var sum := recorded[s.version].checksum;
      if sum.Some? && sum.value != "" && sum.value != s.checksum then Drift else IsApplied
  }

  class Store {
    var recorded: map<Version, Record>
    ghost var ran: seq<Script>

    constructor ()
      ensures recorded == map[] && ran == []
    {
      recorded, ran := map[], [];
    }

    ghost function Contents(): Db reads this { Db(recorded, ran) }

    /** Runs one file in its transaction. */
    method ExecuteFile(s: Script, o: Outcome)
      modifies this
      ensures Contents() == Execute(old(Contents()), s, o)
    {
      if o == SqlFails || (o == RecordFails && !s.ownCommit) {
        return;
      }
      ran := ran + [s];
      recorded := Backfilled(recorded, s);
      if GetsRecorded(o) && s.version !in recorded {
        recorded := recorded[s.version := Record(s.filename, Some(s.checksum))];
      }
    }

    method ApplyPending(files: seq<Script>, version: Version, dryRun: bool, outcome: Script -> Outcome) returns (reply: Reply)
      modifies this
      ensures (Contents(), reply) == Apply(old(Contents()), files, version, dryRun, outcome)
    {
      var todo: seq<Script> := [];
      for i := 0 to |files|
        invariant Contents() == old(Contents())
        invariant todo == Pending(files[..i], recorded, version)
      {
        FilterSnoc(files, i, Wanted(recorded, version));
        if files[i].version in recorded {
          continue;
        }
        if version != "" && files[i].version != version {
          continue;
        }
        todo := todo + [files[i]];
      }
      assert files[..|files|] == files;
      var versions: seq<Version> := [];
      for i := 0 to |todo|
        invariant versions == Versions(todo[..i])
        invariant dryRun ==> Contents() == old(Contents())
        invariant !dryRun ==> ApplyAll(Contents(), todo[i..], outcome) == ApplyAll(old(Contents()), todo, outcome)
      {
        assert todo[..i + 1] == todo[..i] + [todo[i]];
        if dryRun {
          versions := versions + [todo[i].version];
          continue;
        }
        assert todo[i..][1..] == todo[i + 1..];
        ExecuteFile(todo[i], outcome(todo[i]));
        if outcome(todo[i]) != Fine {
          return Raised(todo[i].version);
        }
        versions := versions + [todo[i].version];
      }
      assert todo[..|todo|] == todo;
      return Applied(versions);
    }

    method Status(files: seq<Script>) returns (rows: seq<State>)
      ensures |rows| == |files|
      ensures forall k :: 0 <= k < |files| ==> rows[k] == StateOf(recorded, files[k])
    {
      rows := [];
      for i := 0 to |files|
        invariant |rows| == i
        invariant forall k :: 0 <= k < i ==> rows[k] == StateOf(recorded, files[k])
      {
        var s := files[i];
        if s.version in recorded {
          var sum := recorded[s.version].checksum;
          var drift := sum.Some? && sum.value != "" && sum.value != s.checksum;
          rows := rows + [if drift then Drift else IsApplied];
        } else {
          rows := rows + [IsPending];
        }
      }
    }
  }

  lemma FilterSnoc(files: seq<Script>, i: nat, p: Script -> bool)
    requires i < |files|
    ensures Filter(files[..i + 1], p) == Filter(files[..i], p) + (if p(files[i]) then [files[i]] else [])
  {
    assert files[..i + 1] == files[..i] + [files[i]];
    FilterConcat(files[..i], [files[i]], p);
    FilterCons(files[i], [], p);
    assert [files[i]] + [] == [files[i]];
  }

  // ---- A run that fails at item k commits exactly the k before it ----

  /** The first file of `todo` that does not go well, or their number. */
  function FirstFailure(todo: seq<Script>, outcome: Script -> Outcome): (k: nat)
    ensures k <= |todo|
    ensures forall j :: 0 <= j < k ==> outcome(todo[j]) == Fine
    ensures k < |todo| ==> outcome(todo[k]) != Fine
  {
    if todo == [] || outcome(todo[0]) != Fine then 0 else 1 + FirstFailure(todo[1..], outcome)
  }

  /** An execution that is committed although its record is not: its own commit came before the failure. */
  predicate LeavesTrace(s: Script, o: Outcome) {
    o == RecordFails && s.ownCommit
  }

  predicate Committed(s: Script, o: Outcome) {
    GetsRecorded(o) || LeavesTrace(s, o)
  }

  lemma {:induction false} FailsAtFirstFailure(db: Db, todo: seq<Script>, outcome: Script -> Outcome)
    ensures var k := FirstFailure(todo, outcome);
            ApplyAll(db, todo, outcome).1 == if k < |todo| then Some(todo[k].version) else None
    decreases |todo|
  {
    if todo != [] && outcome(todo[0]) == Fine {
      FailsAtFirstFailure(Execute(db, todo[0], Fine), todo[1..], outcome);
    }
  }

  /** The executions of a pass that are committed: up to the first failure, and that one if it is committed. */
  function Executed(todo: seq<Script>, outcome: Script -> Outcome): (r: seq<Script>)
    ensures r <= todo
  {
    if todo == [] then []
    else if outcome(todo[0]) == Fine then [todo[0]] + Executed(todo[1..], outcome)
    else if Committed(todo[0], outcome(todo[0])) then [todo[0]]
    else []
  }

  lemma {:induction false} PassRunsExecuted(db: Db, todo: seq<Script>, outcome: Script -> Outcome)
    ensures ApplyAll(db, todo, outcome).0.ran == db.ran + Executed(todo, outcome)
    decreases |todo|
  {
    if todo != [] && outcome(todo[0]) == Fine {
      var rest := Executed(todo[1..], outcome);
      PassRunsExecuted(Execute(db, todo[0], Fine), todo[1..], outcome);
      ConcatAssociates(db.ran, [todo[0]], rest);
    } else {
      assert db.ran + [] == db.ran;
    }
  }

  lemma {:induction false} ExecutedIsPrefix(todo: seq<Script>, outcome: Script -> Outcome)
    ensures var k := FirstFailure(todo, outcome);
            |Executed(todo, outcome)| == k + (if k < |todo| && Committed(todo[k], outcome(todo[k])) then 1 else 0)
  {
    if todo != [] && outcome(todo[0]) == Fine {
      ExecutedIsPrefix(todo[1..], outcome);
    }
  }

  lemma FailureCommitsExactlyThePrefix(db: Db, todo: seq<Script>, outcome: Script -> Outcome)
    ensures var k := FirstFailure(todo, outcome);
            var (after, failed) := ApplyAll(db, todo, outcome);
            && failed == (if k < |todo| then Some(todo[k].version) else None)
            && after.ran == db.ran + todo[..if k < |todo| && Committed(todo[k], outcome(todo[k])) then k + 1 else k]
  {
    FailsAtFirstFailure(db, todo, outcome);
    PassRunsExecuted(db, todo, outcome);
    ExecutedIsPrefix(todo, outcome);
  }

  // ---- Recorded is what was committed, and nothing commits twice ----

  predicate HasRun(ran: seq<Script>, v: Version) {
    exists k :: 0 <= k < |ran| && ran[k].version == v
  }

  ghost predicate InStep(db: Db) {
    && (forall v :: v in db.recorded <==> HasRun(db.ran, v))
    && Distinct(Versions(db.ran))
  }

  lemma HasRunAfter(ran: seq<Script>, s: Script, v: Version)
    ensures HasRun(ran + [s], v) <==> HasRun(ran, v) || s.version == v
  {
    if HasRun(ran, v) {
      var k :| 0 <= k < |ran| && ran[k].version == v;
      assert (ran + [s])[k].version == v;
    }
    assert (ran + [s])[|ran|] == s;
  }

  lemma DistinctAfter(ran: seq<Script>, s: Script)
    ensures Distinct(Versions(ran + [s])) <==> Distinct(Versions(ran)) && !HasRun(ran, s.version)
  {
    var was, now := Versions(ran), Versions(ran + [s]);
    assert forall k | 0 <= k < |ran| :: now[k] == was[k];
    assert now[|ran|] == s.version;
    if HasRun(ran, s.version) {
      var k :| 0 <= k < |ran| && ran[k].version == s.version;
      assert now[k] == now[|ran|];
    }
    if Distinct(now) {
      forall i, j | 0 <= i < j < |was| ensures was[i] != was[j] {
        assert now[i] == was[i] && now[j] == was[j];
      }
    }
  }

  /** Executing a pending file keeps the two in step exactly when it records nothing else that has not
      run, and does not commit for itself and then fail to be recorded. */
  lemma ExecuteKeepsStepIff(db: Db, s: Script, o: Outcome)
    requires InStep(db) && s.version !in db.recorded
    ensures InStep(Execute(db, s, o)) <==>
      match o
      case SqlFails => true
      case Fine | FailsRecorded => s.backfill <= db.recorded.Keys + {s.version}
      case RecordFails => s.ownCommit ==> s.version in s.backfill && s.backfill <= db.recorded.Keys + {s.version}
  {
    var after := Execute(db, s, o);
    if after != db {
      DistinctAfter(db.ran, s);
      forall v ensures HasRun(after.ran, v) <==> v in db.recorded || v == s.version {
        HasRunAfter(db.ran, s, v);
      }
      assert GetsRecorded(o) ==> after.recorded.Keys == db.recorded.Keys + s.backfill + {s.version};
      assert o == RecordFails ==> after.recorded.Keys == db.recorded.Keys + s.backfill;
      assert InStep(after) <==> after.recorded.Keys == db.recorded.Keys + {s.version};
    }
  }

  predicate NoneRecorded(todo: seq<Script>, recorded: map<Version, Record>) {
    forall k :: 0 <= k < |todo| ==> todo[k].version !in recorded
  }

  /** The versions the executions `done` record: their backfills, and their own when the record took effect. */
  predicate Writes(done: seq<Script>, outcome: Script -> Outcome, v: Version) {
    exists j :: 0 <= j < |done| && (v in done[j].backfill || (GetsRecorded(outcome(done[j])) && v == done[j].version))
  }

  lemma WritesCons(s: Script, rest: seq<Script>, outcome: Script -> Outcome, v: Version)
    ensures Writes([s] + rest, outcome, v)
       <==> v in s.backfill || (GetsRecorded(outcome(s)) && v == s.version) || Writes(rest, outcome, v)
  {
    var all := [s] + rest;
    assert all[0] == s && forall k :: 0 <= k < |rest| ==> all[k + 1] == rest[k];
  }

  lemma {:induction false} PassRecordsWritten(db: Db, todo: seq<Script>, outcome: Script -> Outcome, v: Version)
    ensures v in ApplyAll(db, todo, outcome).0.recorded <==> v in db.recorded || Writes(Executed(todo, outcome), outcome, v)
    decreases |todo|
  {
    if todo != [] {
      var s := todo[0];
      if outcome(s) == Fine {
        PassRecordsWritten(Execute(db, s, Fine), todo[1..], outcome, v);
        WritesCons(s, Executed(todo[1..], outcome), outcome, v);
      } else {
        WritesCons(s, [], outcome, v);
        assert [s] + [] == [s];
      }
    }
  }

  lemma HasRunConcat(a: seq<Script>, b: seq<Script>, v: Version)
    ensures HasRun(a + b, v) <==> HasRun(a, v) || HasRun(b, v)
  {
    if k :| 0 <= k < |a| && a[k].version == v {
      assert (a + b)[k].version == v;
    }
    if k :| 0 <= k < |b| && b[k].version == v {
      assert (a + b)[|a| + k].version == v;
    }
  }

  /** What can be read off the files of a pass: every backfilled version is recorded already or belongs to
      an executed file, and a file that commits without its record is backfilled by an executed file. */
  predicate RecordsWhatRuns(recorded: set<Version>, todo: seq<Script>, outcome: Script -> Outcome) {
    var done := Executed(todo, outcome);
    && (forall j, v :: 0 <= j < |done| && v in done[j].backfill ==> v in recorded || HasRun(done, v))
    && (forall j :: 0 <= j < |done| && !GetsRecorded(outcome(done[j])) ==> Writes(done, outcome, done[j].version))
  }

  ghost predicate SameVersions(recorded: set<Version>, done: seq<Script>, outcome: Script -> Outcome) {
    forall v :: (v in recorded || Writes(done, outcome, v)) <==> (v in recorded || HasRun(done, v))
  }

  lemma SameVersionsIff(recorded: map<Version, Record>, todo: seq<Script>, outcome: Script -> Outcome)
    requires NoneRecorded(todo, recorded)
    ensures SameVersions(recorded.Keys, Executed(todo, outcome), outcome) <==> RecordsWhatRuns(recorded.Keys, todo, outcome)
  {
    var done := Executed(todo, outcome);
    if SameVersions(recorded.Keys, done, outcome) {
      forall j, v | 0 <= j < |done| && v in done[j].backfill ensures v in recorded || HasRun(done, v) {
        assert Writes(done, outcome, v);
      }
      forall j | 0 <= j < |done| && !GetsRecorded(outcome(done[j])) ensures Writes(done, outcome, done[j].version) {
        assert done[j] == todo[j] && HasRun(done, done[j].version);
      }
    }
    if RecordsWhatRuns(recorded.Keys, todo, outcome) {
      forall v ensures (v in recorded || Writes(done, outcome, v)) <==> (v in recorded || HasRun(done, v)) {
        if j :| 0 <= j < |done| && done[j].version == v {
          assert GetsRecorded(outcome(done[j])) ==> Writes(done, outcome, v);
        }
      }
    }
  }

  lemma PrefixDistinct(db: Db, todo: seq<Script>, done: seq<Script>)
    requires InStep(db) && NoneRecorded(todo, db.recorded) && Distinct(Versions(todo)) && done <= todo
    ensures Distinct(Versions(db.ran + done))
  {
    var all := db.ran + done;
    forall i, j | 0 <= i < j < |all| ensures Versions(all)[i] != Versions(all)[j] {
      DistinctAcross(db, todo, i, j);
    }
  }

  /** The exact condition for a pass over files of distinct versions to keep records and commits in step,
      whatever fails in it. */
  lemma PassKeepsStepIff(db: Db, todo: seq<Script>, outcome: Script -> Outcome)
    requires InStep(db) && NoneRecorded(todo, db.recorded) && Distinct(Versions(todo))
    ensures InStep(ApplyAll(db, todo, outcome).0) <==> RecordsWhatRuns(db.recorded.Keys, todo, outcome)
  {
    var after, done := ApplyAll(db, todo, outcome).0, Executed(todo, outcome);
    PassRunsExecuted(db, todo, outcome);
    PrefixDistinct(db, todo, done);
    SameVersionsIff(db.recorded, todo, outcome);
    forall v ensures v in after.recorded <==> v in db.recorded || Writes(done, outcome, v) {
      PassRecordsWritten(db, todo, outcome, v);
    }
    forall v ensures HasRun(after.ran, v) <==> v in db.recorded || HasRun(done, v) {
      HasRunConcat(db.ran, done, v);
    }
  }

  lemma {:induction false} FilteredVersionsDistinct(files: seq<Script>, p: Script -> bool)
    requires Distinct(Versions(files))
    ensures Distinct(Versions(Filter(files, p)))
    ensures forall k :: 0 <= k < |Filter(files, p)| ==> p(Filter(files, p)[k]) && Filter(files, p)[k] in files
  {
    FilterMembers(files, p);
    if files != [] {
      var rest, kept := files[1..], Filter(files[1..], p);
      assert forall k | 0 <= k < |rest| :: Versions(files)[k + 1] == Versions(rest)[k];
      FilteredVersionsDistinct(rest, p);
      if p(files[0]) {
        FilterMembers(rest, p);
        forall k | 0 <= k < |kept| ensures kept[k].version != files[0].version {
          assert kept[k] in rest;
          var j :| 0 <= j < |rest| && rest[j] == kept[k];
          assert Versions(files)[j + 1] != Versions(files)[0];
        }
        DistinctCons(files[0], kept);
      }
    }
  }

  lemma DistinctCons(s: Script, rest: seq<Script>)
    requires Distinct(Versions(rest)) && forall k :: 0 <= k < |rest| ==> rest[k].version != s.version
    ensures Distinct(Versions([s] + rest))
  {
  }

  // ---- Any sequence of calls ----

  datatype Call = Call(files: seq<Script>, version: Version, dryRun: bool, outcome: Script -> Outcome)

  function Calls(db: Db, calls: seq<Call>): Db
    decreases |calls|
  {
    if calls == [] then db
    else
      var c := calls[0];
      Calls(Apply(db, c.files, c.version, c.dryRun, c.outcome).0, calls[1..])
  }

  predicate CallRecordsWhatRuns(db: Db, c: Call) {
    c.dryRun || RecordsWhatRuns(db.recorded.Keys, Pending(c.files, db.recorded, c.version), c.outcome)
  }

  lemma CallKeepsStepIff(db: Db, c: Call)
    requires InStep(db) && Distinct(Versions(c.files))
    ensures InStep(Apply(db, c.files, c.version, c.dryRun, c.outcome).0) <==> CallRecordsWhatRuns(db, c)
  {
    if !c.dryRun {
      FilteredVersionsDistinct(c.files, Wanted(db.recorded, c.version));
      PassKeepsStepIff(db, Pending(c.files, db.recorded, c.version), c.outcome);
    }
  }

  predicate DistinctVersions(calls: seq<Call>) {
    forall k :: 0 <= k < |calls| ==> Distinct(Versions(calls[k].files))
  }

  /** After every call. */
  ghost predicate AlwaysInStep(db: Db, calls: seq<Call>)
    decreases |calls|
  {
    InStep(db) && (calls == [] || AlwaysInStep(Apply(db, calls[0].files, calls[0].version, calls[0].dryRun, calls[0].outcome).0, calls[1..]))
  }

  predicate AllRecordWhatRuns(db: Db, calls: seq<Call>)
    decreases |calls|
  {
    calls == [] ||
    (CallRecordsWhatRuns(db, calls[0])
     && AllRecordWhatRuns(Apply(db, calls[0].files, calls[0].version, calls[0].dryRun, calls[0].outcome).0, calls[1..]))
  }

  /** Over any sequence of calls on files of distinct versions, with any filters and any failures: after
      every call the recorded versions are those whose SQL was committed, each once, if and only if each
      call's pass records what it runs. */
  lemma {:induction false} RecordedIsCommittedOnceIff(db: Db, calls: seq<Call>)
    requires InStep(db) && DistinctVersions(calls)
    ensures AlwaysInStep(db, calls) <==> AllRecordWhatRuns(db, calls)
    decreases |calls|
  {
    if calls != [] {
      var c := calls[0];
      var next := Apply(db, c.files, c.version, c.dryRun, c.outcome).0;
      CallKeepsStepIff(db, c);
      if InStep(next) {
        RecordedIsCommittedOnceIff(next, calls[1..]);
      }
    }
  }

  // ---- Directories for which that holds in every state ----

  predicate BackfillsEarlier(files: seq<Script>) {
    forall k, v :: 0 <= k < |files| && v in files[k].backfill ==> HasRun(files[..k + 1], v)
  }

  /** Files of distinct versions that backfill no more than themselves and files before them (when a filter
      picks one file, no more than itself), and commit with their record or not at all. */
  predicate WellFormed(c: Call) {
    && Distinct(Versions(c.files)) && BackfillsEarlier(c.files)
    && (forall k :: 0 <= k < |c.files| ==> !LeavesTrace(c.files[k], c.outcome(c.files[k])))
    && (c.version != "" ==> forall k :: 0 <= k < |c.files| && c.files[k].version == c.version ==> c.files[k].backfill <= {c.version})
  }

  /** Filtering keeps the order. */
  lemma FilterOrder(files: seq<Script>, p: Script -> bool, i: nat, k: nat) returns (a: nat, b: nat)
    requires i <= k < |files| && p(files[i]) && p(files[k])
    ensures a <= b < |Filter(files, p)| && Filter(files, p)[a] == files[i] && Filter(files, p)[b] == files[k]
  {
    var front, rest := files[..k], files[k + 1..];
    assert files == front + ([files[k]] + rest);
    FilterConcat(front, [files[k]] + rest, p);
    FilterCons(files[k], rest, p);
    b := |Filter(front, p)|;
    a := b;
    if i < k {
      assert front[i] == files[i];
      FilterKeeps(front, p, files[i]);
      a :| 0 <= a < |Filter(front, p)| && Filter(front, p)[a] == files[i];
    }
  }

  lemma {:induction false} ExecutedAreRecorded(todo: seq<Script>, outcome: Script -> Outcome)
    requires forall k :: 0 <= k < |todo| ==> !LeavesTrace(todo[k], outcome(todo[k]))
    ensures forall j :: 0 <= j < |Executed(todo, outcome)| ==> GetsRecorded(outcome(Executed(todo, outcome)[j]))
  {
    if todo != [] && outcome(todo[0]) == Fine {
      ExecutedAreRecorded(todo[1..], outcome);
    }
  }

  lemma BackfillRunsToo(db: Db, c: Call, j: nat, v: Version)
    requires WellFormed(c)
    requires var done := Executed(Pending(c.files, db.recorded, c.version), c.outcome); j < |done| && v in done[j].backfill
    ensures v in db.recorded || HasRun(Executed(Pending(c.files, db.recorded, c.version), c.outcome), v)
  {
    var p := Wanted(db.recorded, c.version);
    var todo := Filter(c.files, p);
    var done := Executed(todo, c.outcome);
    FilteredVersionsDistinct(c.files, p);
    assert done[j] == todo[j] && todo[j] in c.files && p(todo[j]);
    var k :| 0 <= k < |c.files| && c.files[k] == todo[j];
    assert HasRun(c.files[..k + 1], v);
    var i :| 0 <= i < k + 1 && c.files[..k + 1][i].version == v;
    if v !in db.recorded {
      assert p(c.files[i]);
      var a, b := FilterOrder(c.files, p, i, k);
      assert Versions(todo)[b] == Versions(todo)[j];
      assert done[a].version == v;
    }
  }

  lemma WellFormedRecordsWhatRuns(db: Db, c: Call)
    requires WellFormed(c)
    ensures CallRecordsWhatRuns(db, c)
  {
    if !c.dryRun {
      var todo := Pending(c.files, db.recorded, c.version);
      FilterMembers(c.files, Wanted(db.recorded, c.version));
      forall k | 0 <= k < |todo| ensures !LeavesTrace(todo[k], c.outcome(todo[k])) {
        assert todo[k] in c.files;
      }
      ExecutedAreRecorded(todo, c.outcome);
      var done := Executed(todo, c.outcome);
      forall j, v | 0 <= j < |done| && v in done[j].backfill ensures v in db.recorded || HasRun(done, v) {
        BackfillRunsToo(db, c, j, v);
      }
    }
  }

  /** So over any sequence of calls on such files, in every state, the recorded versions are those whose SQL
      was committed, each once. */
  lemma {:induction false} RecordedIsCommittedOnce(db: Db, calls: seq<Call>)
    requires InStep(db) && forall k :: 0 <= k < |calls| ==> WellFormed(calls[k])
    ensures AlwaysInStep(db, calls)
    decreases |calls|
  {
    if calls != [] {
      var c := calls[0];
      WellFormedRecordsWhatRuns(db, c);
      CallKeepsStepIff(db, c);
      RecordedIsCommittedOnce(Apply(db, c.files, c.version, c.dryRun, c.outcome).0, calls[1..]);
    }
  }

  /** Picking one file by its version goes wrong when that file backfills a version that has not run. */
  lemma PickedBackfillGetsOutOfStep(db: Db, c: Call, s: Script, v: Version)
    requires InStep(db) && Distinct(Versions(c.files)) && !c.dryRun && Pending(c.files, db.recorded, c.version) == [s]
    requires c.outcome(s) == Fine && v in s.backfill && v != s.version && v !in db.recorded
    ensures !InStep(Apply(db, c.files, c.version, c.dryRun, c.outcome).0)
  {
    CallKeepsStepIff(db, c);
    var done := Executed([s], c.outcome);
    assert done == [s] + Executed([s][1..], c.outcome) && [s][1..] == [];
    assert !HasRun(done, v);
  }

  /** Whether versions are distinct matters: a pass that goes well commits each version once exactly
      when no two of its pending files share one; the conflict clause drops the second record. */
  lemma CommitsOnceIffVersionsDistinct(db: Db, todo: seq<Script>, outcome: Script -> Outcome)
    requires InStep(db) && NoneRecorded(todo, db.recorded) && FirstFailure(todo, outcome) == |todo|
    ensures Distinct(Versions(ApplyAll(db, todo, outcome).0.ran)) <==> Distinct(Versions(todo))
  {
    SuccessRunsAll(db, todo, outcome);
    DistinctBehind(db.ran, todo);
    if Distinct(Versions(todo)) {
      PrefixDistinct(db, todo, todo);
    }
  }

  lemma SuccessRunsAll(db: Db, todo: seq<Script>, outcome: Script -> Outcome)
    requires FirstFailure(todo, outcome) == |todo|
    ensures ApplyAll(db, todo, outcome).0.ran == db.ran + todo
  {
    FailureCommitsExactlyThePrefix(db, todo, outcome);
    assert todo[..|todo|] == todo;
  }

  lemma DistinctBehind(ran: seq<Script>, todo: seq<Script>)
    ensures Distinct(Versions(ran + todo)) ==> Distinct(Versions(todo))
  {
    var all := Versions(ran + todo);
    forall i, j | 0 <= i < j < |todo| && Distinct(all) ensures Versions(todo)[i] != Versions(todo)[j] {
      assert all[|ran| + i] != all[|ran| + j];
    }
  }

  lemma DistinctAcross(db: Db, todo: seq<Script>, i: nat, j: nat)
    requires InStep(db) && NoneRecorded(todo, db.recorded) && Distinct(Versions(todo)) && i < j < |db.ran| + |todo|
    ensures (db.ran + todo)[i].version != (db.ran + todo)[j].version
  {
  }

  // ---- Records never change, so DRIFT means the file changed ----

  ghost predicate Extends(was: map<Version, Record>, now: map<Version, Record>) {
    forall v :: v in was ==> v in now && now[v] == was[v]
  }

  lemma {:induction false} PassExtends(db: Db, todo: seq<Script>, outcome: Script -> Outcome)
    ensures var after := ApplyAll(db, todo, outcome).0;
            Extends(db.recorded, after.recorded) && db.ran <= after.ran
    decreases |todo|
  {
    if todo != [] {
      var next := Execute(db, todo[0], outcome(todo[0]));
      assert Extends(db.recorded, next.recorded) && db.ran <= next.ran;
      if outcome(todo[0]) == Fine {
        PassExtends(next, todo[1..], outcome);
      }
    }
  }

  /** No later call, whatever its files and failures, changes a record or undoes a committed file. */
  lemma {:induction false} RecordsNeverChange(db: Db, calls: seq<Call>)
    ensures var after := Calls(db, calls);
            Extends(db.recorded, after.recorded) && db.ran <= after.ran
    decreases |calls|
  {
    if calls != [] {
      var c := calls[0];
      var next := Apply(db, c.files, c.version, c.dryRun, c.outcome).0;
      PassExtends(db, Pending(c.files, db.recorded, c.version), c.outcome);
      RecordsNeverChange(next, calls[1..]);
    }
  }

  lemma PassRunsOnlyTodo(db: Db, todo: seq<Script>, outcome: Script -> Outcome)
    ensures var after := ApplyAll(db, todo, outcome).0;
            |db.ran| <= |after.ran| && forall k :: |db.ran| <= k < |after.ran| ==> after.ran[k] in todo
  {
    FailureCommitsExactlyThePrefix(db, todo, outcome);
  }

  /** Once a version is recorded no file of that version ever runs again, with no assumption at all: of
      two files sharing a version, the one that comes to a later call is never executed. */
  lemma {:induction false} RecordedNeverRunsAgain(db: Db, calls: seq<Call>, v: Version)
    requires v in db.recorded
    ensures var after := Calls(db, calls);
            |db.ran| <= |after.ran| && forall k :: |db.ran| <= k < |after.ran| ==> after.ran[k].version != v
    decreases |calls|
  {
    if calls != [] {
      var c := calls[0];
      var next := Apply(db, c.files, c.version, c.dryRun, c.outcome).0;
      var todo := Pending(c.files, db.recorded, c.version);
      FilterMembers(c.files, Wanted(db.recorded, c.version));
      PassRunsOnlyTodo(db, todo, c.outcome);
      PassExtends(db, todo, c.outcome);
      assert forall k | |db.ran| <= k < |next.ran| :: next.ran[k].version != v;
      RecordedNeverRunsAgain(next, calls[1..], v);
      RecordsNeverChange(next, calls[1..]);
    }
  }

  /** A file the runner recorded shows DRIFT, after any later calls, exactly when its checksum is no
      longer the one it was applied with. */
  lemma DriftIff(db: Db, s: Script, calls: seq<Call>, today: Script)
    requires s.version !in db.recorded && s.version !in s.backfill && s.checksum != "" && today.version == s.version
    ensures var after := Calls(Execute(db, s, Fine), calls);
            StateOf(after.recorded, today) == if today.checksum == s.checksum then IsApplied else Drift
  {
    var next := Execute(db, s, Fine);
    assert next.recorded[s.version] == Record(s.filename, Some(s.checksum));
    RecordsNeverChange(next, calls);
  }

  // ---- After a full success nothing is pending ----

  lemma {:induction false} SuccessRecordsAll(db: Db, todo: seq<Script>, outcome: Script -> Outcome, k: nat)
    requires FirstFailure(todo, outcome) == |todo| && k < |todo|
    ensures todo[k].version in ApplyAll(db, todo, outcome).0.recorded
    decreases |todo|
  {
    var next := Execute(db, todo[0], Fine);
    if k == 0 {
      PassExtends(next, todo[1..], outcome);
    } else {
      SuccessRecordsAll(next, todo[1..], outcome, k - 1);
    }
  }

  /** After a call that returned, another call with the same filter finds nothing to do, and an
      unfiltered one leaves no file pending in the status table; shared versions do not matter here. */
  lemma NothingPendingAfterSuccess(db: Db, files: seq<Script>, version: Version, outcome: Script -> Outcome, again: Script -> Outcome)
    requires Apply(db, files, version, false, outcome).1.Applied?
    ensures var after := Apply(db, files, version, false, outcome).0;
            && Apply(after, files, version, false, again) == (after, Applied([]))
            && (version == "" ==> forall k :: 0 <= k < |files| ==> StateOf(after.recorded, files[k]) != IsPending)
  {
    var todo := Pending(files, db.recorded, version);
    var after := ApplyAll(db, todo, outcome).0;
    FailureCommitsExactlyThePrefix(db, todo, outcome);
    PassExtends(db, todo, outcome);
    forall k | 0 <= k < |files| ensures !Wanted(after.recorded, version)(files[k]) {
      if Wanted(db.recorded, version)(files[k]) {
        FilterKeeps(files, Wanted(db.recorded, version), files[k]);
        var j :| 0 <= j < |todo| && todo[j] == files[k];
        SuccessRecordsAll(db, todo, outcome, j);
      }
    }
    FilterNone(files, Wanted(after.recorded, version));
  }

  /** A dry run changes nothing and announces exactly what a real run that goes well applies. */
  lemma DryRunForetells(db: Db, files: seq<Script>, version: Version, outcome: Script -> Outcome)
    ensures Apply(db, files, version, true, outcome).0 == db
    ensures var todo := Pending(files, db.recorded, version);
            var (after, reply) := Apply(db, files, version, false, outcome);
            && (reply.Applied? <==> FirstFailure(todo, outcome) == |todo|)
            && (reply.Applied? ==> reply == Apply(db, files, version, true, outcome).1 && after.ran == db.ran + todo)
  {
    var todo := Pending(files, db.recorded, version);
    FailureCommitsExactlyThePrefix(db, todo, outcome);
    assert todo[..|todo|] == todo;
  }

  // ---- The whole answer of a call ----

  /** What a call is asked to run: files not recorded, and of the given version if one is given. */
  function Asked(db: Db, version: Version): Script -> bool {
    (s: Script) => !(s.version in db.recorded) && (|version| > 0 ==> s.version == version)
  }

  lemma AskedFiles(db: Db, files: seq<Script>, version: Version) returns (idx: seq<nat>)
    ensures Positions(files, Asked(db, version), idx)
    ensures |Pending(files, db.recorded, version)| == |idx|
    ensures forall n :: 0 <= n < |idx| ==> Pending(files, db.recorded, version)[n] == files[idx[n]]
  {
    idx := FilterPositions(files, Wanted(db.recorded, version));
  }

  /** How many of the asked files go well before the first that does not. */
  predicate GoesWellUpTo(files: seq<Script>, idx: seq<nat>, outcome: Script -> Outcome, m: nat)
    requires forall n :: 0 <= n < |idx| ==> idx[n] < |files|
  {
    && m <= |idx|
    && (forall n :: 0 <= n < m ==> outcome(files[idx[n]]) == Fine)
    && (m < |idx| ==> outcome(files[idx[m]]) != Fine)
  }

  /** A call runs the asked files in file order up to the first failure, and nothing else: the reply lists their
      versions or names the failing one, which is committed itself if it got that far. */
  lemma ApplyAnswer(db: Db, files: seq<Script>, version: Version, outcome: Script -> Outcome) returns (idx: seq<nat>, m: nat)
    ensures Positions(files, Asked(db, version), idx) && GoesWellUpTo(files, idx, outcome, m)
    ensures var (after, reply) := Apply(db, files, version, false, outcome);
            var committed := if m < |idx| && (outcome(files[idx[m]]) == FailsRecorded
                                              || (outcome(files[idx[m]]) == RecordFails && files[idx[m]].ownCommit)) then m + 1 else m;
            && |after.ran| == |db.ran| + committed && after.ran[..|db.ran|] == db.ran
            && (forall n :: 0 <= n < committed ==> after.ran[|db.ran| + n] == files[idx[n]])
            && (if m < |idx| then reply == Raised(files[idx[m]].version)
                else reply.Applied? && |reply.versions| == m
                     && forall n :: 0 <= n < m ==> reply.versions[n] == files[idx[n]].version)
  {
    idx := AskedFiles(db, files, version);
    var todo := Pending(files, db.recorded, version);
    m := FirstFailure(todo, outcome);
    PassAnswer(db, todo, outcome, m);
  }

  lemma PassAnswer(db: Db, todo: seq<Script>, outcome: Script -> Outcome, m: nat)
    requires m == FirstFailure(todo, outcome)
    ensures var (after, failed) := ApplyAll(db, todo, outcome);
            var committed := if m < |todo| && Committed(todo[m], outcome(todo[m])) then m + 1 else m;
            && |after.ran| == |db.ran| + committed && after.ran[..|db.ran|] == db.ran
            && (forall n :: 0 <= n < committed ==> after.ran[|db.ran| + n] == todo[n])
            && failed == if m < |todo| then Some(todo[m].version) else None
  {
    FailureCommitsExactlyThePrefix(db, todo, outcome);
  }

  /** Asked for one version, a call runs no file of another, however it ends. */
  lemma OnlyTheVersionRuns(db: Db, files: seq<Script>, version: Version, outcome: Script -> Outcome, n: nat)
    requires |version| > 0
    requires |db.ran| <= n < |Apply(db, files, version, false, outcome).0.ran|
    ensures Apply(db, files, version, false, outcome).0.ran[n].version == version
  {
    var idx, m := ApplyAnswer(db, files, version, outcome);
    assert Asked(db, version)(files[idx[n - |db.ran|]]);
  }

  /** A dry run lists the versions of the asked files and changes nothing. */
  lemma DryRunAnswer(db: Db, files: seq<Script>, version: Version, outcome: Script -> Outcome) returns (idx: seq<nat>)
    ensures Positions(files, Asked(db, version), idx)
    ensures var (after, reply) := Apply(db, files, version, true, outcome);
            after == db && reply.Applied? && |reply.versions| == |idx|
            && forall n :: 0 <= n < |idx| ==> reply.versions[n] == files[idx[n]].version
  {
    idx := AskedFiles(db, files, version);
  }

  /** What one file leaves in the tables: whether it ran, and which rows its run adds. */
  lemma ExecuteAnswer(db: Db, s: Script, o: Outcome)
    ensures var after := Execute(db, s, o);
            var recorded := o == Fine || o == FailsRecorded;
            var ran := recorded || (o == RecordFails && s.ownCommit);
            && after.ran == (if ran then db.ran + [s] else db.ran)
            && (forall v :: v in after.recorded <==> v in db.recorded || (ran && v in s.backfill) || (recorded && v == s.version))
            && (forall v :: v in db.recorded ==> after.recorded[v] == db.recorded[v])
            && (forall v :: v in after.recorded && v !in db.recorded ==>
                  after.recorded[v] == if v in s.backfill then Record("", None) else Record(s.filename, Some(s.checksum)))
  {
  }

  /** What the status table shows: unrecorded files are pending, and a recorded one drifted exactly when its row has
      a checksum and that is another one. */
  lemma StatusAnswer(recorded: map<Version, Record>, s: Script)
    ensures StateOf(recorded, s) == IsPending <==> s.version !in recorded
    ensures StateOf(recorded, s) == Drift <==>
      s.version in recorded && recorded[s.version].checksum !in {None, Some(""), Some(s.checksum)}
  {
  }
}
