/** In which states the operator merge script can leave the database, for every argument and every point
    of failure. */
module MergeScriptLaws {
  import opened Sequences
  import opened MergeScript

  // ---- The two phases in closed form ----

  /** Every row of a merged person points to the canonical one, and the merged people are soft-deleted. */
  function AfterMerges(t: Tables, merges: seq<PersonId>, canonical: PersonId): Tables {
    Tables(
      map id | id in t.people :: if id in merges then t.people[id].(deleted := true) else t.people[id],
      map k | k in t.rows :: if t.rows[k].Some? && t.rows[k].value in merges then Some(canonical) else t.rows[k])
  }

  function AfterDeletes(t: Tables, deletes: seq<PersonId>): Tables {
    Tables(map id | id in t.people && id !in deletes :: t.people[id], t.rows)
  }

  lemma MergeThenMerges(t: Tables, loser: PersonId, rest: seq<PersonId>, canonical: PersonId)
    requires loser in t.people
    ensures AfterMerges(Merged(t, loser, canonical), rest, canonical) == AfterMerges(t, [loser] + rest, canonical)
  {
  }

  lemma DeleteThenDeletes(t: Tables, target: PersonId, rest: seq<PersonId>)
    ensures AfterDeletes(Deleted(t, target), rest) == AfterDeletes(t, [target] + rest)
  {
    assert forall id :: id in [target] + rest <==> id == target || id in rest;
  }

  lemma {:induction false} MergePhase(s: Session, a: Args, f: nat -> Fault, i: nat)
    requires i <= |a.merges| && MergeFrom(s, a, f, i).Some?
    ensures var r := MergeFrom(s, a, f, i).value;
            && r.committed == s.committed
            && r.working == AfterMerges(s.working, a.merges[i..], a.canonical)
            && r.aborted == if i < |a.merges| then f(|a.merges| - 1) == AuditFails else s.aborted
    decreases |a.merges| - i
  {
    if i == |a.merges| {
      NoMerges(s.working, a.canonical);
    } else {
      var loser, rest := a.merges[i], a.merges[i + 1..];
      MergePhase(MergeOne(s, a, loser, f(i)).value, a, f, i + 1);
      MergeThenMerges(s.working, loser, rest, a.canonical);
      assert a.merges[i..] == [loser] + rest;
    }
  }

  lemma NoMerges(t: Tables, canonical: PersonId)
    ensures AfterMerges(t, [], canonical) == t
  {
  }

  lemma NoDeletes(t: Tables)
    ensures AfterDeletes(t, []) == t
  {
    assert AfterDeletes(t, []).people == t.people;
  }

  lemma {:induction false} DeletePhase(s: Session, a: Args, f: nat -> Fault, i: nat)
    requires i <= |a.deletes| && DeleteFrom(s, a, f, i).Next?
    ensures var r := DeleteFrom(s, a, f, i).s;
            && r.committed == s.committed
            && r.working == AfterDeletes(s.working, a.deletes[i..])
            && r.aborted == if i < |a.deletes| then f(|a.deletes| - 1) == AuditFails else s.aborted
    ensures forall k :: i <= k < |a.deletes| ==> a.deletes[k] in s.working.people && (!a.dryRun ==> !Refers(s.working.rows, a.deletes[k]))
    decreases |a.deletes| - i
  {
    if i == |a.deletes| {
      NoDeletes(s.working);
    } else {
      var target, rest := a.deletes[i], a.deletes[i + 1..];
      DeletePhase(DeleteOne(s, a, target, f(i)).s, a, f, i + 1);
      DeleteThenDeletes(s.working, target, rest);
      assert a.deletes[i..] == [target] + rest;
    }
  }

  // ---- When the phases run through ----

  /** Every id exists and no statement raises; a swallowed audit failure is followed by no other id. */
  predicate MergesRun(t: Tables, a: Args, f: nat -> Fault, i: nat) {
    forall k :: i <= k < |a.merges| ==>
      Exists(t, a.merges[k], a.tenant) && f(k) != StatementRaises && (k < |a.merges| - 1 ==> f(k) == NoFault)
  }

  lemma {:induction false} MergeFromIff(s: Session, a: Args, f: nat -> Fault, i: nat)
    requires i <= |a.merges|
    ensures MergeFrom(s, a, f, i).Some? <==> i == |a.merges| || (!s.aborted && MergesRun(s.working, a, f, i))
    decreases |a.merges| - i
  {
    if i < |a.merges| {
      var one := MergeOne(s, a, a.merges[i], f(i));
      if one.Some? {
        MergeFromIff(one.value, a, f, i + 1);
        assert forall id :: Exists(one.value.working, id, a.tenant) <==> Exists(s.working, id, a.tenant);
      }
    }
  }

  /** The same, with the ids distinct and, outside a dry run, not referred to. */
  predicate DeletesRun(t: Tables, a: Args, f: nat -> Fault, i: nat) {
    && (forall k :: i <= k < |a.deletes| ==>
          && Exists(t, a.deletes[k], a.tenant) && f(k) != StatementRaises && (k < |a.deletes| - 1 ==> f(k) == NoFault)
          && (!a.dryRun ==> !Refers(t.rows, a.deletes[k])))
    && (forall j, k :: i <= j < k < |a.deletes| ==> a.deletes[j] != a.deletes[k])
  }

  lemma {:induction false} DeleteFromIff(s: Session, a: Args, f: nat -> Fault, i: nat)
    requires i <= |a.deletes|
    ensures DeleteFrom(s, a, f, i).Next? <==> i == |a.deletes| || (!s.aborted && DeletesRun(s.working, a, f, i))
    decreases |a.deletes| - i
  {
    if i < |a.deletes| {
      var target := a.deletes[i];
      var one := DeleteOne(s, a, target, f(i));
      if one.Next? {
        DeleteFromIff(one.s, a, f, i + 1);
        assert forall id :: Exists(one.s.working, id, a.tenant) <==> Exists(s.working, id, a.tenant) && id != target;
        assert one.s.working.rows == s.working.rows;
      }
    }
  }

  // ---- Where a call can end ----

  /** The audit insert of the last merge failed: the commit that follows discards all the merges. */
  predicate MergesLost(a: Args, f: Faults) {
    a.merges != [] && f.merge(|a.merges| - 1) == AuditFails
  }

  predicate DeletesLost(a: Args, f: Faults) {
    a.deletes != [] && f.delete(|a.deletes| - 1) == AuditFails
  }

  /** What the delete phase starts from outside a dry run. */
  function Base(db: Tables, a: Args, f: Faults): Tables {
    if MergesLost(a, f) then db else AfterMerges(db, a.merges, a.canonical)
  }

  /** What a caller can see of a coming success: outside a dry run. */
  predicate Succeeds(db: Tables, a: Args, f: Faults) {
    && MergesRun(db, a, f.merge, 0) && (a.merges == [] || !f.mergeCommitRaises)
    && DeletesRun(Base(db, a, f), a, f.delete, 0) && !f.finalCommitRaises
  }

  lemma EndOfDeletes(s: Session, a: Args, f: Faults)
    requires a.dryRun || (s.working == s.committed && !s.aborted)
    ensures var (end, exit) := Finish(s, a, f);
            && (a.dryRun || exit != Code(0) ==> end == s.committed)
            && (!a.dryRun ==> (exit == Code(0) <==> DeletesRun(s.committed, a, f.delete, 0) && !f.finalCommitRaises))
            && (exit == Code(0) && !a.dryRun ==> end == if DeletesLost(a, f) then s.committed else AfterDeletes(s.committed, a.deletes))
  {
    DeleteFromIff(s, a, f.delete, 0);
    if DeleteFrom(s, a, f.delete, 0).Next? {
      DeletePhase(s, a, f.delete, 0);
      assert a.deletes[0..] == a.deletes;
    }
  }

  /** When both phases go through, and the exact end of every call that gets to them. */
  lemma EndOfCall(db: Tables, a: Args, f: Faults)
    ensures var (end, exit) := Phases(db, a, f);
            && (a.dryRun ==> end == db)
            && (!a.dryRun ==> (exit == Code(0) <==> Succeeds(db, a, f)))
            && (!a.dryRun && exit == Code(0) ==>
                  end == if DeletesLost(a, f) then Base(db, a, f) else AfterDeletes(Base(db, a, f), a.deletes))
            && (exit != Code(0) ==> end == db || end == Base(db, a, f))
  {
    var start := Session(db, db, false);
    MergeFromIff(start, a, f.merge, 0);
    var merged := MergeFrom(start, a, f.merge, 0);
    if merged.Some? {
      MergePhase(start, a, f.merge, 0);
      assert a.merges[0..] == a.merges;
      NoMerges(db, a.canonical);
      EndOfDeletes(if a.merges == [] || a.dryRun then merged.value else Committed(merged.value), a, f);
    }
  }

  /** A dry run changes nothing, whatever its arguments and failures. */
  lemma DryRunChangesNothing(db: Tables, q: Request, f: Faults)
    requires q.dryRun
    ensures Cleanup(db, q, f).0 == db
  {
    EndOfCall(db, Denoted(q), f);
  }

  // ---- The three states ----

  predicate ThreeStates(db: Tables, a: Args, end: Tables) {
    var merged := AfterMerges(db, a.merges, a.canonical);
    end == db || end == merged || end == AfterDeletes(merged, a.deletes)
  }

  /** The merges would repoint some row, or soft-delete someone who is not deleted anyway. */
  predicate MergesMatter(db: Tables, a: Args) {
    exists id :: id in a.merges
      && ((id != a.canonical && Refers(db.rows, id))
          || (id in db.people && id !in a.deletes && !db.people[id].deleted))
  }

  lemma MergesMatterIff(db: Tables, a: Args)
    ensures MergesMatter(db, a) <==>
      AfterDeletes(db, a.deletes) != AfterDeletes(AfterMerges(db, a.merges, a.canonical), a.deletes)
  {
    var merged := AfterMerges(db, a.merges, a.canonical);
    var l, r := AfterDeletes(db, a.deletes), AfterDeletes(merged, a.deletes);
    if id :| id in a.merges && id != a.canonical && Refers(db.rows, id) {
      var k :| k in db.rows && db.rows[k] == Some(id);
      assert l.rows[k] != r.rows[k];
    } else if id :| id in a.merges && id in db.people && id !in a.deletes && !db.people[id].deleted {
      assert l.people[id] != r.people[id];
    } else {
      forall k | k in db.rows ensures l.rows[k] == r.rows[k] {
        if db.rows[k].Some? && db.rows[k].value in a.merges {
          assert Refers(db.rows, db.rows[k].value);
        }
      }
      assert l.rows == r.rows;
      assert l.people == r.people;
    }
  }

  lemma DeletesAloneAreOutside(db: Tables, a: Args)
    requires a.deletes != [] && a.deletes[0] in db.people
    ensures ThreeStates(db, a, AfterDeletes(db, a.deletes)) <==> !MergesMatter(db, a)
  {
    var target := a.deletes[0];
    assert target !in AfterDeletes(db, a.deletes).people && target in AfterMerges(db, a.merges, a.canonical).people;
    MergesMatterIff(db, a);
  }

  /** A call that gets past its checks leaves the database unchanged, with all the merges, or with all the
      merges and all the deletes, except exactly when it succeeds although the last merge's audit insert
      failed, the merges would have mattered, and there are deletes that were kept. */
  lemma ThreeStatesIff(db: Tables, q: Request, f: Faults)
    requires EarlyExit(db, q).None?
    ensures var a := Denoted(q);
            ThreeStates(db, a, Cleanup(db, q, f).0) <==>
              !(!a.dryRun && Succeeds(db, a, f) && MergesLost(a, f) && MergesMatter(db, a) && a.deletes != [] && !DeletesLost(a, f))
  {
    var a := Denoted(q);
    EndOfCall(db, a, f);
    if !a.dryRun && Succeeds(db, a, f) && MergesLost(a, f) {
      if a.deletes == [] {
        NoDeletes(db);
      } else {
        assert Exists(db, a.deletes[0], a.tenant);
        DeletesAloneAreOutside(db, a);
      }
    }
  }

  /** The fourth state is reached: one live loser whose audit insert fails, and one target nothing refers to. */
  lemma DeletesWithoutMerges(db: Tables, q: Request, f: Faults, loser: Spelling, target: Spelling)
    requires EarlyExit(db, q).None? && !q.dryRun && q.merges == [loser] && q.deletes == [target]
    requires var id := q.denotes(loser); Exists(db, id, q.tenant) && !db.people[id].deleted && id != q.denotes(target)
    requires Exists(db, q.denotes(target), q.tenant) && !Refers(db.rows, q.denotes(target))
    requires f.merge(0) == AuditFails && f.delete(0) == NoFault && !f.mergeCommitRaises && !f.finalCommitRaises
    ensures Cleanup(db, q, f) == (Deleted(db, q.denotes(target)), Code(0))
    ensures !ThreeStates(db, Denoted(q), Deleted(db, q.denotes(target)))
  {
    var a := Denoted(q);
    assert a.merges == [q.denotes(loser)] && a.deletes == [q.denotes(target)];
    EndOfCall(db, a, f);
    ThreeStatesIff(db, q, f);
    assert Succeeds(db, a, f);
    assert a.merges[0] in a.merges && MergesMatter(db, a);
    DeleteThenDeletes(db, a.deletes[0], []);
    NoDeletes(Deleted(db, a.deletes[0]));
    assert [a.deletes[0]] + [] == a.deletes;
  }

  // ---- What a success promises ----

  /** No row is created or removed by any call: the row counts of the five tables are kept. */
  lemma RowsAreConserved(db: Tables, q: Request, f: Faults)
    ensures Cleanup(db, q, f).0.rows.Keys == db.rows.Keys
  {
    var a := Denoted(q);
    EndOfCall(db, a, f);
    assert AfterMerges(db, a.merges, a.canonical).rows.Keys == db.rows.Keys;
  }

  ghost predicate NoReference(rows: Rows, a: Args) {
    forall id :: id in a.merges || id in a.deletes ==> !Refers(rows, id)
  }

  predicate SomeMergedReferred(db: Tables, a: Args) {
    exists id :: id in a.merges && Refers(db.rows, id)
  }

  lemma AfterMergesRefers(db: Tables, a: Args, id: PersonId)
    ensures Refers(AfterMerges(db, a.merges, a.canonical).rows, id) <==>
      (id !in a.merges && Refers(db.rows, id)) || (id == a.canonical && SomeMergedReferred(db, a))
  {
    var merged := AfterMerges(db, a.merges, a.canonical);
    if k :| k in db.rows && db.rows[k] == Some(id) && id !in a.merges {
      assert merged.rows[k] == Some(id);
    }
    if SomeMergedReferred(db, a) {
      var other :| other in a.merges && Refers(db.rows, other);
      var k :| k in db.rows && db.rows[k] == Some(other);
      assert merged.rows[k] == Some(a.canonical);
    }
    if k :| k in merged.rows && merged.rows[k] == Some(id) {
      assert db.rows[k].Some? && Refers(db.rows, db.rows[k].value);
    }
  }

  /** After a success no row refers to a merged or deleted id, except exactly when some row referred to a
      merged id before and the merges were lost, or the canonical id is itself among the merged ones under
      another spelling. */
  lemma SuccessLeavesNoReferenceIff(db: Tables, q: Request, f: Faults)
    requires Cleanup(db, q, f).1 == Code(0) && !q.dryRun
    ensures var a := Denoted(q);
            NoReference(Cleanup(db, q, f).0.rows, a) <==>
              !((MergesLost(a, f) || a.canonical in a.merges) && SomeMergedReferred(db, a))
  {
    var a := Denoted(q);
    EndOfCall(db, a, f);
    var end := Cleanup(db, q, f).0;
    assert end.rows == Base(db, a, f).rows;
    forall id | id in a.deletes ensures !Refers(end.rows, id) {
      var k :| 0 <= k < |a.deletes| && a.deletes[k] == id;
      assert !Refers(Base(db, a, f).rows, a.deletes[k]);
    }
    if !MergesLost(a, f) {
      forall id | id in a.merges ensures Refers(end.rows, id) <==> id == a.canonical && SomeMergedReferred(db, a) {
        AfterMergesRefers(db, a, id);
      }
    }
  }

  /** After a success whose audit inserts worked the rows of the merged people belong to the canonical one
      and every other row is as it was; the deleted people are gone, the other merged ones soft-deleted, and
      everyone else is as before. */
  lemma SuccessIsComplete(db: Tables, q: Request, f: Faults)
    requires Cleanup(db, q, f).1 == Code(0) && !q.dryRun && !MergesLost(Denoted(q), f) && !DeletesLost(Denoted(q), f)
    ensures var a, end := Denoted(q), Cleanup(db, q, f).0;
            && end.rows == AfterMerges(db, a.merges, a.canonical).rows
            && (forall id :: id in end.people <==> id in db.people && id !in a.deletes)
            && (forall id :: id in end.people ==> end.people[id].deleted == (db.people[id].deleted || id in a.merges)
                                                   && end.people[id].tenant == db.people[id].tenant)
  {
    EndOfCall(db, Denoted(q), f);
  }

  /** The overlap guard compares spellings, so one id in two spellings passes it: the canonical person is
      merged into itself, with exit 0, and keeps its rows as a soft-deleted person. */
  lemma CanonicalMergedIntoItself(db: Tables, q: Request, f: Faults, other: Spelling)
    requires other != q.canonical && q.denotes(other) == q.denotes(q.canonical)
    requires q.merges == [other] && q.deletes == [] && !q.dryRun && q.confirmed
    requires var id := q.denotes(other); Exists(db, id, q.tenant) && !db.people[id].deleted && Refers(db.rows, id)
    requires f.merge(0) == NoFault && !f.mergeCommitRaises && !f.finalCommitRaises
    ensures var id, (end, exit) := q.denotes(other), Cleanup(db, q, f);
            exit == Code(0) && id in end.people && end.people[id].deleted && Refers(end.rows, id)
  {
    var a := Denoted(q);
    assert a.merges == [a.canonical] && a.deletes == [];
    EndOfCall(db, a, f);
    assert Succeeds(db, a, f);
    assert a.merges[0] in a.merges;
    SuccessIsComplete(db, q, f);
    AfterMergesRefers(db, a, a.canonical);
  }

  // ---- When the audit table does not take the inserts ----

  ghost predicate EveryIdFaulty(f: Faults) {
    forall i: nat :: f.merge(i) != NoFault && f.delete(i) != NoFault
  }

  /** If no audit insert ever works, as against an `audit_log` table without the inserted columns, the
      script never changes the database, whatever it reports. */
  lemma WithoutAuditTableNothingChanges(db: Tables, q: Request, f: Faults)
    requires EveryIdFaulty(f)
    ensures Cleanup(db, q, f).0 == db
  {
    var a := Denoted(q);
    EndOfCall(db, a, f);
    NoMerges(db, a.canonical);
    NoDeletes(db);
    var start := Session(db, db, false);
    MergeFromIff(start, a, f.merge, 0);
    if MergeFrom(start, a, f.merge, 0).Some? {
      FaultyBase(db, a, f);
      if Succeeds(db, a, f) && a.deletes != [] {
        assert f.delete(0) != NoFault && f.delete(|a.deletes| - 1) != NoFault;
      }
    }
  }

  lemma FaultyBase(db: Tables, a: Args, f: Faults)
    requires EveryIdFaulty(f) && MergesRun(db, a, f.merge, 0)
    ensures Base(db, a, f) == db
  {
    if a.merges == [] {
      NoMerges(db, a.canonical);
    } else {
      assert f.merge(0) != NoFault && f.merge(|a.merges| - 1) != NoFault;
    }
  }

  /** And it may well report success. */
  lemma LostMergeReportsSuccess(db: Tables, q: Request, f: Faults, loser: Spelling)
    requires EarlyExit(db, q).None? && !q.dryRun && q.merges == [loser] && q.deletes == []
    requires Exists(db, q.denotes(loser), q.tenant)
    requires f.merge(0) == AuditFails && !f.mergeCommitRaises && !f.finalCommitRaises
    ensures Cleanup(db, q, f) == (db, Code(0))
  {
    var a := Denoted(q);
    assert a.merges == [q.denotes(loser)] && a.deletes == [];
    EndOfCall(db, a, f);
    assert Succeeds(db, a, f);
    NoDeletes(db);
  }
}
