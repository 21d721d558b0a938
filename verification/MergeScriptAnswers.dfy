/** The whole answer of the operator merge script, read off its arguments, the tables and the points of failure
    (scripts/merge_operator_duplicates.py): the exit of every call and the tables it leaves. */
module MergeScriptAnswers {
  import opened Sequences
  import opened MergeScript
  import opened MergeScriptLaws

  // ---- The refusals ----

  predicate Known(t: Tables, id: PersonId, tenant: string) {
    id in t.people && t.people[id].tenant == tenant
  }

  ghost predicate PointedTo(t: Tables, id: PersonId) {
    exists k :: k in t.rows && t.rows[k] == Some(id)
  }

  predicate NothingAsked(q: Request) {
    |q.merges| == 0 && |q.deletes| == 0
  }

  /** One spelling has two roles. */
  ghost predicate SpellingShared(q: Request) {
    exists s ::
      (s in q.merges && s in q.deletes) || (s in q.merges && s == q.canonical) || (s in q.deletes && s == q.canonical)
  }

  predicate CanonicalKnown(db: Tables, q: Request) {
    Known(db, q.denotes(q.canonical), q.tenant)
  }

  predicate CanonicalGone(db: Tables, q: Request) {
    CanonicalKnown(db, q) && db.people[q.denotes(q.canonical)].deleted
  }

  /** The call gets as far as the question. */
  ghost predicate WellFormed(db: Tables, q: Request) {
    !NothingAsked(q) && !SpellingShared(q) && CanonicalKnown(db, q) && !CanonicalGone(db, q)
  }

  lemma OverlapIsShared(q: Request)
    ensures Overlap(q) <==> SpellingShared(q)
  {
  }

  lemma PhasesExits(db: Tables, a: Args, f: Faults)
    ensures Phases(db, a, f).1 in {Code(0), Code(3), Raised}
  {
  }

  /** Each refusal with its exit, nothing written. */
  lemma Refusals(db: Tables, q: Request, f: Faults)
    ensures var (end, exit) := Cleanup(db, q, f);
            && (NothingAsked(q) || SpellingShared(q) ==> end == db && exit == Code(2))
            && (!NothingAsked(q) && !SpellingShared(q) && !CanonicalKnown(db, q) ==> end == db && exit == Raised)
            && (!NothingAsked(q) && !SpellingShared(q) && CanonicalGone(db, q) ==> end == db && exit == Code(2))
            && (WellFormed(db, q) && !q.dryRun && !q.confirmed ==> end == db && exit == Code(1))
  {
    OverlapIsShared(q);
  }

  /** The exits 1 and 2 mean just these refusals. */
  lemma RefusalsIff(db: Tables, q: Request, f: Faults)
    ensures var exit := Cleanup(db, q, f).1;
            && (exit == Code(1) <==> WellFormed(db, q) && !q.dryRun && !q.confirmed)
            && (exit == Code(2) <==> NothingAsked(q) || SpellingShared(q) || CanonicalGone(db, q))
  {
    OverlapIsShared(q);
    PhasesExits(db, Denoted(q), f);
    Refusals(db, q, f);
  }

  // ---- The merges ----

  /** Each loser exists, no statement raises, and an audit insert fails for the last one at most. */
  predicate MergesGo(db: Tables, q: Request, f: Faults) {
    forall k :: 0 <= k < |q.merges| ==>
      && Known(db, q.denotes(q.merges[k]), q.tenant)
      && f.merge(k) != StatementRaises && (k + 1 < |q.merges| ==> f.merge(k) == NoFault)
  }

  /** The insert of the last merge failed, so the transaction is aborted. */
  predicate LastMergeAborts(q: Request, f: Faults) {
    |q.merges| > 0 && f.merge(|q.merges| - 1) == AuditFails
  }

  predicate IsLoser(q: Request, id: PersonId) {
    exists k :: 0 <= k < |q.merges| && q.denotes(q.merges[k]) == id
  }

  /** The losers are soft-deleted and their rows are the canonical person's. */
  predicate LosersMerged(db: Tables, q: Request, next: Tables) {
    && next.people.Keys == db.people.Keys && next.rows.Keys == db.rows.Keys
    && (forall id :: id in db.people ==>
          next.people[id] == Person(db.people[id].tenant, db.people[id].deleted || IsLoser(q, id)))
    && (forall k :: k in db.rows ==>
          next.rows[k] == if db.rows[k].Some? && IsLoser(q, db.rows[k].value) then Some(q.denotes(q.canonical)) else db.rows[k])
  }

  lemma LosersAre(q: Request, id: PersonId)
    ensures id in Denoted(q).merges <==> IsLoser(q, id)
  {
    var a := Denoted(q);
    if IsLoser(q, id) {
      var k :| 0 <= k < |q.merges| && q.denotes(q.merges[k]) == id;
      assert a.merges[k] == id;
    }
  }

  lemma AfterMergesMerges(db: Tables, q: Request)
    ensures LosersMerged(db, q, AfterMerges(db, Denoted(q).merges, Denoted(q).canonical))
  {
    forall id ensures id in Denoted(q).merges <==> IsLoser(q, id) {
      LosersAre(q, id);
    }
  }

  lemma MergesGoIff(db: Tables, q: Request, f: Faults)
    ensures MergeFrom(Session(db, db, false), Denoted(q), f.merge, 0).Some? <==> MergesGo(db, q, f)
  {
    MergeFromIff(Session(db, db, false), Denoted(q), f.merge, 0);
    assert forall id :: Exists(db, id, q.tenant) <==> Known(db, id, q.tenant);
  }

  // ---- The deletes ----

  /** The deletes get to the `k`-th, which exists and whose statements do not raise. */
  ghost predicate Reaches(t: Tables, a: Args, f: nat -> Fault, i: nat, k: nat) {
    && i <= k < |a.deletes|
    && (forall j :: i <= j < k ==>
          Known(t, a.deletes[j], a.tenant) && f(j) == NoFault && (a.dryRun || !PointedTo(t, a.deletes[j])))
    && (forall j, l :: i <= j < l <= k ==> a.deletes[j] != a.deletes[l])
    && Known(t, a.deletes[k], a.tenant) && f(k) != StatementRaises
  }

  ghost predicate SomeBlocked(t: Tables, a: Args, f: nat -> Fault, i: nat) {
    exists k: nat :: Reaches(t, a, f, i, k) && PointedTo(t, a.deletes[k])
  }

  lemma ReachesAfter(t: Tables, a: Args, f: nat -> Fault, i: nat, k: nat)
    requires i < |a.deletes| && i < k && Known(t, a.deletes[i], a.tenant) && f(i) == NoFault
    requires a.dryRun || !PointedTo(t, a.deletes[i])
    ensures Reaches(t, a, f, i, k) <==> Reaches(Deleted(t, a.deletes[i]), a, f, i + 1, k)
  {
    var next := Deleted(t, a.deletes[i]);
    assert forall id :: Known(next, id, a.tenant) <==> Known(t, id, a.tenant) && id != a.deletes[i];
    assert forall id :: PointedTo(next, id) <==> PointedTo(t, id);
  }

  lemma PointedToIff(t: Tables, id: PersonId)
    ensures Refers(t.rows, id) <==> PointedTo(t, id)
  {
  }

  lemma {:induction false} DeleteRefusedIff(s: Session, a: Args, f: nat -> Fault, i: nat)
    requires i <= |a.deletes| && !a.dryRun
    ensures DeleteFrom(s, a, f, i) == Refused <==> !s.aborted && SomeBlocked(s.working, a, f, i)
    decreases |a.deletes| - i
  {
    if i < |a.deletes| {
      var target := a.deletes[i];
      PointedToIff(s.working, target);
      var one := DeleteOne(s, a, target, f(i));
      if one.Refused? {
        assert Reaches(s.working, a, f, i, i);
      } else if one.Next? {
        DeleteRefusedIff(one.s, a, f, i + 1);
        if f(i) == NoFault {
          forall k: nat | k > i ensures Reaches(s.working, a, f, i, k) <==> Reaches(one.s.working, a, f, i + 1, k) {
            ReachesAfter(s.working, a, f, i, k);
          }
          BlockedLater(s.working, a, f, i);
        }
      }
    }
  }

  lemma BlockedLater(t: Tables, a: Args, f: nat -> Fault, i: nat)
    requires i < |a.deletes| && !PointedTo(t, a.deletes[i])
    requires forall k: nat :: k > i ==> (Reaches(t, a, f, i, k) <==> Reaches(Deleted(t, a.deletes[i]), a, f, i + 1, k))
    ensures SomeBlocked(t, a, f, i) <==> SomeBlocked(Deleted(t, a.deletes[i]), a, f, i + 1)
  {
    var next := Deleted(t, a.deletes[i]);
    assert forall id :: PointedTo(next, id) <==> PointedTo(t, id);
    if SomeBlocked(t, a, f, i) {
      var k: nat :| Reaches(t, a, f, i, k) && PointedTo(t, a.deletes[k]);
      assert k > i && Reaches(next, a, f, i + 1, k);
    }
    if SomeBlocked(next, a, f, i + 1) {
      var k: nat :| Reaches(next, a, f, i + 1, k) && PointedTo(next, a.deletes[k]);
      assert Reaches(t, a, f, i, k);
    }
  }

  /** All deletes go through: the targets exist, are distinct and, outside a dry run, not referred to. */
  ghost predicate DeletesGo(t: Tables, a: Args, f: nat -> Fault) {
    && (forall k :: 0 <= k < |a.deletes| ==>
          && Known(t, a.deletes[k], a.tenant) && f(k) != StatementRaises && (k + 1 < |a.deletes| ==> f(k) == NoFault)
          && (a.dryRun || !PointedTo(t, a.deletes[k])))
    && (forall j, k :: 0 <= j < k < |a.deletes| ==> a.deletes[j] != a.deletes[k])
  }

  lemma DeletesGoIff(t: Tables, a: Args, f: nat -> Fault)
    ensures DeletesRun(t, a, f, 0) <==> DeletesGo(t, a, f)
  {
    assert forall id :: Exists(t, id, a.tenant) <==> Known(t, id, a.tenant);
    assert forall id :: Refers(t.rows, id) <==> PointedTo(t, id);
  }

  // ---- The end of every call ----

  /** What the statements work on: the ids the spellings denote. */
  predicate Denotes(q: Request, a: Args) {
    && a.tenant == q.tenant && a.dryRun == q.dryRun && a.canonical == q.denotes(q.canonical)
    && |a.merges| == |q.merges| && (forall k :: 0 <= k < |q.merges| ==> a.merges[k] == q.denotes(q.merges[k]))
    && |a.deletes| == |q.deletes| && (forall k :: 0 <= k < |q.deletes| ==> a.deletes[k] == q.denotes(q.deletes[k]))
  }

  predicate LastDeleteAborts(a: Args, f: Faults) {
    |a.deletes| > 0 && f.delete(|a.deletes| - 1) == AuditFails
  }

  /** The targets are gone, and nothing else. */
  ghost predicate TargetsGone(base: Tables, a: Args, end: Tables) {
    && end.rows == base.rows
    && (forall id :: id in end.people <==> id in base.people && id !in a.deletes)
    && (forall id :: id in end.people ==> end.people[id] == base.people[id])
  }

  /** The end of the delete phase on committed tables. */
  ghost predicate DeletesEnd(base: Tables, a: Args, f: Faults, end: Tables, exit: Exit) {
    if !DeletesGo(base, a, f.delete) then
      end == base && exit == (if SomeBlocked(base, a, f.delete, 0) then Code(3) else Raised)
    else if f.finalCommitRaises then end == base && exit == Raised
    else exit == Code(0) && (if LastDeleteAborts(a, f) then end == base else TargetsGone(base, a, end))
  }

  lemma FinishAnswer(base: Tables, a: Args, f: Faults)
    requires !a.dryRun
    ensures var (end, exit) := Finish(Session(base, base, false), a, f); DeletesEnd(base, a, f, end, exit)
  {
    var s := Session(base, base, false);
    DeleteFromIff(s, a, f.delete, 0);
    DeletesGoIff(base, a, f.delete);
    DeleteRefusedIff(s, a, f.delete, 0);
    if DeleteFrom(s, a, f.delete, 0).Next? {
      DeletePhase(s, a, f.delete, 0);
      assert a.deletes[0..] == a.deletes;
      assert TargetsGone(base, a, AfterDeletes(base, a.deletes));
      if |a.deletes| == 0 {
        NoDeletes(base);
      }
    }
  }

  lemma DryFinishAnswer(s: Session, a: Args, f: Faults)
    requires a.dryRun
    ensures Finish(s, a, f) == (s.committed, if |a.deletes| == 0 || (!s.aborted && DeletesGo(s.working, a, f.delete)) then Code(0) else Raised)
  {
    DeleteFromIff(s, a, f.delete, 0);
    DeletesGoIff(s.working, a, f.delete);
    DryNeverRefused(s, a, f.delete, 0);
    if DeleteFrom(s, a, f.delete, 0).Next? {
      DeletePhase(s, a, f.delete, 0);
    }
  }

  lemma {:induction false} DryNeverRefused(s: Session, a: Args, f: nat -> Fault, i: nat)
    requires i <= |a.deletes| && a.dryRun
    ensures !DeleteFrom(s, a, f, i).Refused?
    decreases |a.deletes| - i
  {
    if i < |a.deletes| {
      var one := DeleteOne(s, a, a.deletes[i], f(i));
      if one.Next? {
        DryNeverRefused(one.s, a, f, i + 1);
      }
    }
  }

  /** A call that passes its guards: a merge that cannot go through undoes everything; otherwise the merges are kept,
      or lost without a word if the last one's audit insert failed, and the deletes end as on those tables. A dry run
      keeps nothing and reports whether both phases would go through, references aside. */
  lemma EndAnswer(db: Tables, q: Request, f: Faults, a: Args, merged: Tables)
    requires WellFormed(db, q) && (q.dryRun || q.confirmed) && Denotes(q, a) && LosersMerged(db, q, merged)
    ensures var (end, exit) := Cleanup(db, q, f);
            if !MergesGo(db, q, f) || (|q.merges| > 0 && !q.dryRun && f.mergeCommitRaises) then
              end == db && exit == Raised
            else if q.dryRun then
              && end == db
              && exit == (if |q.deletes| == 0 || (!LastMergeAborts(q, f) && DeletesGo(merged, a, f.delete)) then Code(0) else Raised)
            else
              DeletesEnd(if LastMergeAborts(q, f) then db else merged, a, f, end, exit)
  {
    DenotedIs(q, a);
    PassesGuards(db, q, f);
    MergedTablesAre(db, q, merged);
    MergesGoIff(db, q, f);
    if MergesGo(db, q, f) {
      MergesEnd(db, q, f, a);
      if q.dryRun {
        DryFinishAnswer(Session(db, merged, LastMergeAborts(q, f)), a, f);
      } else {
        FinishAnswer(if LastMergeAborts(q, f) then db else merged, a, f);
      }
    }
  }

  lemma DenotedIs(q: Request, a: Args)
    requires Denotes(q, a)
    ensures a == Denoted(q)
  {
    assert a.merges == Denoted(q).merges && a.deletes == Denoted(q).deletes;
  }

  lemma PassesGuards(db: Tables, q: Request, f: Faults)
    requires WellFormed(db, q) && (q.dryRun || q.confirmed)
    ensures Cleanup(db, q, f) == Phases(db, Denoted(q), f)
  {
    OverlapIsShared(q);
  }

  /** Where the merge loop ends, and what its commit keeps. */
  lemma MergesEnd(db: Tables, q: Request, f: Faults, a: Args)
    requires a == Denoted(q) && MergesGo(db, q, f)
    ensures MergeFrom(Session(db, db, false), a, f.merge, 0)
         == Some(Session(db, AfterMerges(db, a.merges, a.canonical), LastMergeAborts(q, f)))
    ensures |q.merges| == 0 ==> AfterMerges(db, a.merges, a.canonical) == db
  {
    MergesGoIff(db, q, f);
    MergePhase(Session(db, db, false), a, f.merge, 0);
    NoMerges(db, a.canonical);
    assert a.merges[0..] == a.merges;
  }

  lemma MergedTablesAre(db: Tables, q: Request, merged: Tables)
    requires LosersMerged(db, q, merged)
    ensures merged == AfterMerges(db, Denoted(q).merges, Denoted(q).canonical)
  {
    var other := AfterMerges(db, Denoted(q).merges, Denoted(q).canonical);
    AfterMergesMerges(db, q);
    assert merged.people == other.people;
    assert merged.rows == other.rows;
  }
}
