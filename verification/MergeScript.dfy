/** The operator merge script (scripts/merge_operator_duplicates.py): merges and hard deletes in two
    transactions on one connection. */
module MergeScript {
  import opened Sequences

  /** A person's UUID, and the text it is written as; PostgreSQL reads several spellings as one id. */
  type PersonId = string
  type Spelling = string

  datatype Table = ContactIdentifiers | Tasks | Notes | Conversations | Routines

  const FK_TABLES: seq<Table> := [ContactIdentifiers, Tasks, Notes, Conversations, Routines]

  /** One row of one of the five tables. */
  datatype Slot = Slot(table: Table, row: nat)

  type Rows = map<Slot, Option<PersonId>>

  datatype Person = Person(tenant: string, deleted: bool)

  datatype Tables = Tables(people: map<PersonId, Person>, rows: Rows)

  /** What may go wrong while one id is processed: a statement raises (or the process dies), or only the
      insert into `audit_log` fails, which is swallowed but leaves the transaction aborted. */
  datatype Fault = NoFault | StatementRaises | AuditFails

  /** The parsed command line, and the id each spelling denotes. */
  datatype Request = Request(
    tenant: string,
    canonical: Spelling,
    merges: seq<Spelling>,
    deletes: seq<Spelling>,
    dryRun: bool,
    confirmed: bool,
    denotes: Spelling -> PersonId)

  /** What the statements work on. */
  datatype Args = Args(tenant: string, canonical: PersonId, merges: seq<PersonId>, deletes: seq<PersonId>, dryRun: bool)

  function Ids(spellings: seq<Spelling>, denotes: Spelling -> PersonId): (r: seq<PersonId>)
    ensures |r| == |spellings| && forall k :: 0 <= k < |spellings| ==> r[k] == denotes(spellings[k])
  {
    seq(|spellings|, k requires 0 <= k < |spellings| => denotes(spellings[k]))
  }

  function Denoted(q: Request): Args {
    Args(q.tenant, q.denotes(q.canonical), Ids(q.merges, q.denotes), Ids(q.deletes, q.denotes), q.dryRun)
  }

  datatype Faults = Faults(merge: nat -> Fault, delete: nat -> Fault, mergeCommitRaises: bool, finalCommitRaises: bool)

  /** The exit code, or an exception. */
  datatype Exit = Code(n: nat) | Raised

  // ---- Statements ----

  predicate Exists(t: Tables, id: PersonId, tenant: string) {
    id in t.people && t.people[id].tenant == tenant
  }

  function RepointTable(rows: Rows, table: Table, loser: PersonId, canonical: PersonId): Rows {
    map k | k in rows :: if k.table == table && rows[k] == Some(loser) then Some(canonical) else rows[k]
  }

  function Repoint(rows: Rows, loser: PersonId, canonical: PersonId): Rows {
    map k | k in rows :: if rows[k] == Some(loser) then Some(canonical) else rows[k]
  }

  predicate Refers(rows: Rows, id: PersonId) {
    exists k :: k in rows && rows[k] == Some(id)
  }

  function References(rows: Rows, table: Table, id: PersonId): set<Slot> {
    set k | k in rows && k.table == table && rows[k] == Some(id)
  }

  function Merged(t: Tables, loser: PersonId, canonical: PersonId): Tables
    requires loser in t.people
  {
    Tables(t.people[loser := t.people[loser].(deleted := true)], Repoint(t.rows, loser, canonical))
  }

  function Deleted(t: Tables, target: PersonId): Tables {
    Tables(t.people - {target}, t.rows)
  }

  // ---- The connection ----

  /** `working` is what the open transaction sees; an aborted one accepts no further statement. */
  datatype Session = Session(committed: Tables, working: Tables, aborted: bool)

  /** COMMIT of an aborted transaction reports no error and rolls back. */
  function Committed(s: Session): Session {
    var kept := if s.aborted then s.committed else s.working;
    Session(kept, kept, false)
  }

  function RolledBack(s: Session): Session {
    Session(s.committed, s.committed, false)
  }

  /** One turn of the merge loop; None when it raises. */
  function MergeOne(s: Session, a: Args, loser: PersonId, fault: Fault): Option<Session> {
    if s.aborted || !Exists(s.working, loser, a.tenant) || fault == StatementRaises then None
    else Some(s.(working := Merged(s.working, loser, a.canonical), aborted := fault == AuditFails))
  }

  function MergeFrom(s: Session, a: Args, f: nat -> Fault, i: nat): Option<Session>
    requires i <= |a.merges|
    decreases |a.merges| - i
  {
    if i == |a.merges| then Some(s)
    else
      match MergeOne(s, a, a.merges[i], f(i))
      case None => None
      case Some(next) => MergeFrom(next, a, f, i + 1)
  }

  datatype Turn = Next(s: Session) | Refused | Broke

  /** One turn of the delete loop; a target still referred to is refused, except in a dry run. */
  function DeleteOne(s: Session, a: Args, target: PersonId, fault: Fault): Turn {
    if s.aborted || !Exists(s.working, target, a.tenant) || fault == StatementRaises then Broke
    else if Refers(s.working.rows, target) && !a.dryRun then Refused
    else Next(s.(working := Deleted(s.working, target), aborted := fault == AuditFails))
  }

  function DeleteFrom(s: Session, a: Args, f: nat -> Fault, i: nat): Turn
    requires i <= |a.deletes|
    decreases |a.deletes| - i
  {
    if i == |a.deletes| then Next(s)
    else
      match DeleteOne(s, a, a.deletes[i], f(i))
      case Next(next) => DeleteFrom(next, a, f, i + 1)
      case other => other
  }

  // ---- main ----

  /** The guard compares spellings. */
  predicate Overlap(q: Request) {
    || (exists id :: id in q.merges && id in q.deletes)
    || q.canonical in q.merges || q.canonical in q.deletes
  }

  /** The exit taken before the first write, if any. */
  function EarlyExit(db: Tables, q: Request): Option<Exit> {
    var canonical := q.denotes(q.canonical);
    if q.merges == [] && q.deletes == [] then Some(Code(2))
    else if Overlap(q) then Some(Code(2))
    else if !Exists(db, canonical, q.tenant) then Some(Raised)
    else if db.people[canonical].deleted then Some(Code(2))
    else if !q.dryRun && !q.confirmed then Some(Code(1))
    else None
  }

  function Finish(s: Session, a: Args, f: Faults): (Tables, Exit) {
    match DeleteFrom(s, a, f.delete, 0)
    case Broke => (s.committed, Raised)
    case Refused => (s.committed, Code(3))
    case Next(t) =>
      if a.dryRun then (t.committed, Code(0))
      else if f.finalCommitRaises then (t.committed, Raised)
      else (Committed(t).committed, Code(0))
  }

  /** Both phases. */
  function Phases(db: Tables, a: Args, f: Faults): (Tables, Exit) {
    match MergeFrom(Session(db, db, false), a, f.merge, 0)
    case None => (db, Raised)
    case Some(s) =>
      if a.merges == [] || a.dryRun then Finish(s, a, f)
      else if f.mergeCommitRaises then (db, Raised)
      else Finish(Committed(s), a, f)
  }

  function Cleanup(db: Tables, q: Request, f: Faults): (Tables, Exit) {
    var early := EarlyExit(db, q);
    if early.Some? then (db, early.value) else Phases(db, Denoted(q), f)
  }

  class Connection {
    var committed: Tables
    var working: Tables
    var aborted: bool

    constructor (db: Tables)
      ensures Current() == Session(db, db, false)
    {
      committed, working, aborted := db, db, false;
    }

    ghost function Current(): Session reads this { Session(committed, working, aborted) }

    method Commit()
      modifies this
      ensures Current() == Committed(old(Current()))
    {
      if aborted {
        working := committed;
      }
      committed, aborted := working, false;
    }

    method Rollback()
      modifies this
      ensures Current() == RolledBack(old(Current()))
    {
      working, aborted := committed, false;
    }

    /** One UPDATE per table. */
    method RepointFks(loser: PersonId, canonical: PersonId)
      modifies this`working
      ensures working == old(working).(rows := Repoint(old(working).rows, loser, canonical))
    {
      ghost var was := working.rows;
      RepointInNone(was, loser, canonical);
      for i := 0 to |FK_TABLES|
        invariant working == old(working).(rows := RepointIn(was, FK_TABLES[..i], loser, canonical))
      {
        RepointInSnoc(was, i, loser, canonical);
        working := working.(rows := RepointTable(working.rows, FK_TABLES[i], loser, canonical));
      }
      RepointInAll(was, loser, canonical);
    }

    /** One COUNT per table, summed. */
    method CountRefs(id: PersonId) returns (total: nat)
      ensures total > 0 <==> Refers(working.rows, id)
    {
      total := 0;
      for i := 0 to |FK_TABLES|
        invariant total > 0 <==> exists k :: k in working.rows && k.table in FK_TABLES[..i] && working.rows[k] == Some(id)
      {
        assert FK_TABLES[..i + 1] == FK_TABLES[..i] + [FK_TABLES[i]];
        ReferencesIff(working.rows, FK_TABLES[i], id);
        total := total + |References(working.rows, FK_TABLES[i], id)|;
      }
      AllTables();
      assert FK_TABLES[..|FK_TABLES|] == FK_TABLES;
    }

    method MergeLoser(a: Args, loser: PersonId, fault: Fault) returns (ok: bool)
      modifies this
      ensures var r := MergeOne(old(Current()), a, loser, fault);
              ok == r.Some? && (ok ==> Current() == r.value)
      ensures committed == old(committed)
    {
      if aborted || !Exists(working, loser, a.tenant) || fault == StatementRaises {
        return false;
      }
      RepointFks(loser, a.canonical);
      working := working.(people := working.people[loser := working.people[loser].(deleted := true)]);
      aborted := fault == AuditFails;
      return true;
    }

    method DeleteTarget(a: Args, target: PersonId, fault: Fault) returns (turn: Turn)
      modifies this
      ensures turn == DeleteOne(old(Current()), a, target, fault)
      ensures if turn.Next? then Current() == turn.s else Current() == old(Current())
    {
      if aborted || !Exists(working, target, a.tenant) || fault == StatementRaises {
        return Broke;
      }
      var refs := CountRefs(target);
      if refs > 0 && !a.dryRun {
        return Refused;
      }
      working := Tables(working.people - {target}, working.rows);
      aborted := fault == AuditFails;
      return Next(Session(committed, working, aborted));
    }

    /** `main`, from the parsed arguments; a pooled connection is rolled back on the way out of an
        exception. */
    method RunScript(q: Request, f: Faults) returns (exit: Exit)
      requires working == committed && !aborted
      modifies this
      ensures (committed, exit) == Cleanup(old(committed), q, f)
      ensures working == committed && !aborted
    {
      if q.merges == [] && q.deletes == [] {
        return Code(2);
      }
      if Overlap(q) {
        return Code(2);
      }
      var a := Denoted(q);
      if !Exists(working, a.canonical, a.tenant) {
        return Raised;
      }
      if working.people[a.canonical].deleted {
        return Code(2);
      }
      if !q.dryRun && !q.confirmed {
        return Code(1);
      }
      exit := RunPhases(a, f);
    }

    method RunPhases(a: Args, f: Faults) returns (exit: Exit)
      requires working == committed && !aborted
      modifies this
      ensures (committed, exit) == Phases(old(committed), a, f)
      ensures working == committed && !aborted
    {
      ghost var start := Current();
      for i := 0 to |a.merges|
        invariant MergeFrom(Current(), a, f.merge, i) == MergeFrom(start, a, f.merge, 0)
        invariant committed == start.committed
      {
        var ok := MergeLoser(a, a.merges[i], f.merge(i));
        if !ok {
          Rollback();
          return Raised;
        }
      }
      if a.merges != [] && !a.dryRun {
        if f.mergeCommitRaises {
          Rollback();
          return Raised;
        }
        Commit();
      }
      ghost var middle := Current();
      for i := 0 to |a.deletes|
        invariant DeleteFrom(Current(), a, f.delete, i) == DeleteFrom(middle, a, f.delete, 0)
        invariant committed == middle.committed
      {
        var turn := DeleteTarget(a, a.deletes[i], f.delete(i));
        if turn.Broke? {
          Rollback();
          return Raised;
        }
        if turn.Refused? {
          Rollback();
          return Code(3);
        }
      }
      if a.dryRun {
        Rollback();
        return Code(0);
      }
      if f.finalCommitRaises {
        Rollback();
        return Raised;
      }
      Commit();
      return Code(0);
    }
  }

  lemma AllTables()
    ensures forall t: Table :: t in FK_TABLES
  {
    forall t: Table ensures t in FK_TABLES {
      match t
      case ContactIdentifiers => assert FK_TABLES[0] == t;
      case Tasks => assert FK_TABLES[1] == t;
      case Notes => assert FK_TABLES[2] == t;
      case Conversations => assert FK_TABLES[3] == t;
      case Routines => assert FK_TABLES[4] == t;
    }
  }

  /** The rows after the UPDATEs of some of the tables. */
  function RepointIn(rows: Rows, tables: seq<Table>, loser: PersonId, canonical: PersonId): Rows {
    map k | k in rows :: if k.table in tables && rows[k] == Some(loser) then Some(canonical) else rows[k]
  }

  lemma RepointInNone(rows: Rows, loser: PersonId, canonical: PersonId)
    ensures RepointIn(rows, FK_TABLES[..0], loser, canonical) == rows
  {
  }

  lemma RepointInSnoc(rows: Rows, i: nat, loser: PersonId, canonical: PersonId)
    requires i < |FK_TABLES|
    ensures RepointTable(RepointIn(rows, FK_TABLES[..i], loser, canonical), FK_TABLES[i], loser, canonical)
         == RepointIn(rows, FK_TABLES[..i + 1], loser, canonical)
  {
    assert FK_TABLES[..i + 1] == FK_TABLES[..i] + [FK_TABLES[i]];
  }

  lemma RepointInAll(rows: Rows, loser: PersonId, canonical: PersonId)
    ensures RepointIn(rows, FK_TABLES[..|FK_TABLES|], loser, canonical) == Repoint(rows, loser, canonical)
  {
    AllTables();
    assert FK_TABLES[..|FK_TABLES|] == FK_TABLES;
  }

  lemma ReferencesIff(rows: Rows, table: Table, id: PersonId)
    ensures |References(rows, table, id)| > 0 <==> exists k :: k in rows && k.table == table && rows[k] == Some(id)
  {
    var found := References(rows, table, id);
    if k :| k in rows && k.table == table && rows[k] == Some(id) {
      assert k in found && |found| == |found - {k}| + 1;
    } else {
      assert found == {};
    }
  }
}
