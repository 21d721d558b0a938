/** The whole answer of the calls on people, table by table (robothor/crm/dal.py, robothor/crm/validation.py): which
    calls go through, what every row is then, and which rows stay. */
module PeopleAnswers {
  import opened Sequences
  import opened Text
  import opened People
  import opened PeopleLaws

  // ---- create_person ----

  /** The first name is real, neither it nor the whole name is blocked, and an address looks like one. */
  predicate Accepts(blocklist: set<string>, first: string, last: string, email: string) {
    var name := Lower(Strip(first));
    && |Strip(first)| >= 2 && name !in {"null", "none", "n/a"} && name !in blocklist
    && Lower(Strip(first + " " + last)) !in blocklist
    && (email != "" ==> '@' in email)
  }

  function NormalForm(email: string): string {
    if '@' in Strip(Lower(email)) then Strip(Lower(email)) else ""
  }

  /** The row of a new person: the names as given, the e-mail in its normal form or none, no further addresses. */
  predicate IsNewPerson(p: Person, first: string, last: string, email: string, phone: string, tenant: string) {
    && p.Value(FirstName) == first && p.Value(LastName) == last && p.Value(Phone) == phone
    && p.Value(Email) == NormalForm(email)
    && (forall f :: f in {JobTitle, City, LinkedinUrl, AvatarUrl, CompanyId} ==> p.Value(f) == "")
    && p.moreEmails == [] && p.morePhones == [] && !p.deleted && p.tenant == tenant
  }

  lemma CreateAnswer(people: map<PersonId, Person>, blocklist: set<string>, id: PersonId, first: string, last: string,
                     email: string, phone: string, tenant: string)
    ensures var (next, created) := CreateSpec(people, blocklist, id, first, last, email, phone, tenant);
            && (created <==> Accepts(blocklist, first, last, email) && id !in people)
            && (!created ==> next == people)
            && (created ==>
                  && next.Keys == people.Keys + {id}
                  && (forall k :: k in people ==> next[k] == people[k])
                  && IsNewPerson(next[id], first, last, email, phone, tenant))
  {
    AcceptsIff(blocklist, first, last, email);
    NewPersonIs(first, last, email, phone, tenant);
  }

  lemma AcceptsIff(blocklist: set<string>, first: string, last: string, email: string)
    ensures ValidPersonInput(blocklist, first, last, email) <==> Accepts(blocklist, first, last, email)
  {
  }

  lemma NormalEmail(email: string)
    ensures NormalizeEmail(email) == NormalForm(email)
  {
  }

  lemma NewRow(first: string, last: string, email: string, phone: string, tenant: string)
    ensures var p := Person(map[FirstName := first, LastName := last, Email := email, Phone := phone], [], [], false, tenant);
            && p.Value(FirstName) == first && p.Value(LastName) == last && p.Value(Email) == email && p.Value(Phone) == phone
            && forall f :: f in {JobTitle, City, LinkedinUrl, AvatarUrl, CompanyId} ==> p.Value(f) == ""
  {
  }

  lemma NewPersonRow(first: string, last: string, email: string, phone: string, tenant: string)
    ensures NewPerson(first, last, email, phone, tenant)
         == Person(map[FirstName := first, LastName := last, Email := NormalForm(email), Phone := phone], [], [], false, tenant)
  {
    ScrubbedIsName(first);
    ScrubbedIsName(last);
    NormalEmail(email);
  }

  lemma NewPersonIs(first: string, last: string, email: string, phone: string, tenant: string)
    ensures IsNewPerson(NewPerson(first, last, email, phone, tenant), first, last, email, phone, tenant)
  {
    NewPersonRow(first, last, email, phone, tenant);
    NewRow(first, last, NormalForm(email), phone, tenant);
  }

  // ---- merge_people ----

  predicate IsLive(crm: Crm, id: PersonId, tenant: string) {
    id in crm.people && !crm.people[id].deleted && crm.people[id].tenant == tenant
  }

  predicate Merges(crm: Crm, keeper: PersonId, loser: PersonId, tenant: string, note: RowId) {
    IsLive(crm, keeper, tenant) && IsLive(crm, loser, tenant) && note !in crm.notes
  }

  /** The keeper's columns: its own ink first, the loser's where it has none. */
  ghost predicate ColumnsFilled(k: Person, l: Person, next: Person) {
    && next.tenant == k.tenant
    && forall f: Field :: next.Value(f) == if Strip(k.Value(f)) == "" && Strip(l.Value(f)) != "" then l.Value(f) else k.Value(f)
  }

  /** The `k`-th candidate joins a list: it is not empty, not the primary value, and new. */
  predicate Joins(existing: seq<string>, candidates: seq<string>, primary: string, k: nat)
    requires k < |candidates|
  {
    candidates[k] !in {"", primary} && candidates[k] !in existing && candidates[k] !in candidates[..k]
  }

  /** The positions of the joining candidates, in order. */
  predicate Joining(existing: seq<string>, candidates: seq<string>, primary: string, idx: seq<nat>) {
    && Increasing(idx)
    && (forall n :: 0 <= n < |idx| ==> idx[n] < |candidates| && Joins(existing, candidates, primary, idx[n]))
    && (forall k :: 0 <= k < |candidates| && Joins(existing, candidates, primary, k) ==> k in idx)
  }

  lemma {:induction false} CollectedSnoc(existing: seq<string>, candidates: seq<string>, c: string, primary: string)
    ensures var r := Collected(existing, candidates, primary);
            Collected(existing, candidates + [c], primary) == if c != "" && c != primary && c !in r then r + [c] else r
    decreases |candidates|
  {
    if candidates == [] {
      assert candidates + [c] == [c] && [c][1..] == [];
    } else {
      var first, rest := candidates[0], candidates[1..];
      assert (candidates + [c])[1..] == rest + [c];
      CollectedSnoc(if first != "" && first != primary && first !in existing then existing + [first] else existing, rest, c, primary);
    }
  }

  lemma ListedAfter(existing: seq<string>, candidates: seq<string>, c: string, primary: string)
    requires c != "" && c != primary
    ensures c in Collected(existing, candidates, primary) <==> c in existing || c in candidates
  {
    CollectedGains(existing, candidates, primary);
    var r := Collected(existing, candidates, primary);
    assert c in r <==> c in Elements(r);
    assert c in existing <==> c in Elements(existing);
    assert c in candidates <==> c in Elements(candidates);
  }

  /** A collected list is the old one followed by the joining candidates. */
  lemma {:induction false} CollectedAnswer(existing: seq<string>, candidates: seq<string>, primary: string) returns (idx: seq<nat>)
    ensures Joining(existing, candidates, primary, idx)
    ensures var r := Collected(existing, candidates, primary);
            && |r| == |existing| + |idx| && r[..|existing|] == existing
            && forall n :: 0 <= n < |idx| ==> r[|existing| + n] == candidates[idx[n]]
    decreases |candidates|
  {
    if candidates == [] {
      idx := [];
    } else {
      var n := |candidates| - 1;
      var init, c := candidates[..n], candidates[n];
      assert candidates == init + [c];
      idx := CollectedAnswer(existing, init, primary);
      JoiningInit(existing, init, c, primary);
      CollectedSnoc(existing, init, c, primary);
      if c != "" && c != primary {
        ListedAfter(existing, init, c, primary);
      }
      if Joins(existing, candidates, primary, n) {
        idx := idx + [n];
        assert idx[|idx| - 1] == n;
      }
    }
  }

  lemma JoiningInit(existing: seq<string>, init: seq<string>, c: string, primary: string)
    ensures forall k :: 0 <= k < |init| ==> (Joins(existing, init + [c], primary, k) <==> Joins(existing, init, primary, k))
  {
    forall k | 0 <= k < |init| ensures Joins(existing, init + [c], primary, k) <==> Joins(existing, init, primary, k) {
      assert (init + [c])[..k] == init[..k];
    }
  }

  /** The lists of the keeper are collected from the loser's primary value and list, against its own old primary one. */
  lemma ListsOfMerge(crm: Crm, keeper: PersonId, loser: PersonId, tenant: string, note: RowId) returns (emails: seq<nat>, phones: seq<nat>)
    requires Merges(crm, keeper, loser, tenant, note)
    ensures var (k, l) := (crm.people[keeper], crm.people[loser]);
            var next := MergeSpec(crm, keeper, loser, tenant, note).0.people[keeper];
            && Joining(k.moreEmails, [l.Value(Email)] + l.moreEmails, k.Value(Email), emails)
            && |next.moreEmails| == |k.moreEmails| + |emails| && next.moreEmails[..|k.moreEmails|] == k.moreEmails
            && (forall n :: 0 <= n < |emails| ==> next.moreEmails[|k.moreEmails| + n] == ([l.Value(Email)] + l.moreEmails)[emails[n]])
            && Joining(k.morePhones, [l.Value(Phone)] + l.morePhones, k.Value(Phone), phones)
            && |next.morePhones| == |k.morePhones| + |phones| && next.morePhones[..|k.morePhones|] == k.morePhones
            && (forall n :: 0 <= n < |phones| ==> next.morePhones[|k.morePhones| + n] == ([l.Value(Phone)] + l.morePhones)[phones[n]])
  {
    var k, l := crm.people[keeper], crm.people[loser];
    emails := CollectedAnswer(k.moreEmails, [l.Value(Email)] + l.moreEmails, k.Value(Email));
    phones := CollectedAnswer(k.morePhones, [l.Value(Phone)] + l.morePhones, k.Value(Phone));
  }

  lemma PeopleOfMerge(crm: Crm, keeper: PersonId, loser: PersonId, tenant: string, note: RowId)
    requires Merges(crm, keeper, loser, tenant, note)
    ensures var next := MergeSpec(crm, keeper, loser, tenant, note).0;
            && next.people.Keys == crm.people.Keys
            && (forall id :: id in crm.people && id != keeper && id != loser ==> next.people[id] == crm.people[id])
            && ColumnsFilled(crm.people[keeper], crm.people[loser], next.people[keeper])
            && next.people[loser].deleted
            && (keeper != loser ==>
                  next.people[loser] == crm.people[loser].(deleted := true) && !next.people[keeper].deleted)
  {
    MergedColumns(crm.people[keeper], crm.people[loser], MergeSpec(crm, keeper, loser, tenant, note).0.people[keeper]);
  }

  lemma MergedColumns(k: Person, l: Person, next: Person)
    requires next.fields == MergedPerson(k, l).fields && next.tenant == k.tenant
    ensures ColumnsFilled(k, l, next)
  {
    forall f: Field ensures next.Value(f) == if Strip(k.Value(f)) == "" && Strip(l.Value(f)) != "" then l.Value(f) else k.Value(f) {
      MergedValue(k, l, f);
    }
  }

  /** A row that refers to people: the loser's now refer to the keeper, all else about it stays. */
  predicate Repointed(was: Link, now: Link, keeper: PersonId, loser: PersonId) {
    now.deleted == was.deleted && now.person == if was.person == Some(loser) then Some(keeper) else was.person
  }

  predicate LiveRowsRepointed(was: map<RowId, Link>, now: map<RowId, Link>, keeper: PersonId, loser: PersonId)
    requires was.Keys <= now.Keys
  {
    forall k :: k in was ==> if was[k].deleted then now[k] == was[k] else Repointed(was[k], now[k], keeper, loser)
  }

  /** All five tables after a merge, row by row; a refused merge changes none. */
  lemma MergeAnswer(crm: Crm, keeper: PersonId, loser: PersonId, tenant: string, note: RowId)
    ensures var (next, merged) := MergeSpec(crm, keeper, loser, tenant, note);
            && (merged <==> Merges(crm, keeper, loser, tenant, note))
            && (!merged ==> next == crm)
            && (merged ==>
                  && next.identifiers.Keys == crm.identifiers.Keys
                  && (forall k :: k in crm.identifiers ==>
                        && next.identifiers[k].display == crm.identifiers[k].display
                        && next.identifiers[k].person ==
                             if crm.identifiers[k].person == Some(loser) then Some(keeper) else crm.identifiers[k].person)
                  && next.conversations.Keys == crm.conversations.Keys
                  && (forall k :: k in crm.conversations ==> Repointed(crm.conversations[k], next.conversations[k], keeper, loser))
                  && next.tasks.Keys == crm.tasks.Keys && LiveRowsRepointed(crm.tasks, next.tasks, keeper, loser)
                  && next.notes.Keys == crm.notes.Keys + {note} && LiveRowsRepointed(crm.notes, next.notes, keeper, loser)
                  && next.notes[note] == Link(Some(keeper), false))
  {
  }

  // ---- resolve_contact ----

  /** `name.split(None, 1)`: blanks, the first word, and, if there is more, blanks again and the remainder. */
  lemma NameSplits(name: string) returns (lead: string, gap: string)
    requires !Blank(name)
    ensures name == lead + FirstWord(name) + gap + Remainder(name)
    ensures (forall k :: 0 <= k < |lead| ==> IsSpace(lead[k])) && (forall k :: 0 <= k < |gap| ==> IsSpace(gap[k]))
    ensures FirstWord(name) != "" && forall k :: 0 <= k < |FirstWord(name)| ==> !IsSpace(FirstWord(name)[k])
    ensures Remainder(name) != "" ==> gap != "" && !IsSpace(Remainder(name)[0])
  {
    var s := StripLeft(name);
    StripLeftFindsInk(name);
    lead := StrippedOff(name);
    FirstWordHasNoSpace(name);
    gap := AfterWord(s);
    FourParts(lead, FirstWord(name), gap, Remainder(name));
  }

  lemma FourParts(a: string, b: string, c: string, d: string)
    ensures a + (b + (c + d)) == a + b + c + d
  {
  }

  lemma AfterWord(s: string) returns (gap: string)
    requires s != "" && !IsSpace(s[0])
    ensures var rest := s[WordEnd(s, 0)..];
            && s == s[..WordEnd(s, 0)] + rest && s[..WordEnd(s, 0)] != ""
            && rest == gap + StripLeft(rest)
            && (forall k :: 0 <= k < |gap| ==> IsSpace(gap[k]))
            && (StripLeft(rest) != "" ==> gap != "")
  {
    var rest := s[WordEnd(s, 0)..];
    WordStops(s, 0);
    gap := StrippedOff(rest);
  }

  lemma {:induction false} StrippedOff(s: string) returns (lead: string)
    ensures s == lead + StripLeft(s) && forall k :: 0 <= k < |lead| ==> IsSpace(lead[k])
  {
    if s != "" && IsSpace(s[0]) {
      var more := StrippedOff(s[1..]);
      lead := [s[0]] + more;
      assert s == [s[0]] + s[1..];
    } else {
      lead := "";
    }
  }

  lemma {:induction false} WordStops(s: string, i: nat)
    requires i <= |s|
    ensures WordEnd(s, i) < |s| ==> IsSpace(s[WordEnd(s, i)])
    decreases |s| - i
  {
    if i < |s| && !IsSpace(s[i]) {
      WordStops(s, i + 1);
    }
  }

  /** Who a contact is known to be: the person it is mapped to, else the owner if the name is the owner's, else the
      first hit of the search. */
  function WhoIsIt(crm: Crm, key: Key, name: string, lookup: Lookup): Option<PersonId> {
    var mapped := if key in crm.identifiers then crm.identifiers[key].person else None;
    match mapped
    case Some(_) => mapped
    case None =>
      match lookup.owner
      case Some(_) => if |name| > 0 then lookup.owner else lookup.hit
      case None => lookup.hit
  }

  /** The mapping is written, under the name if there is one, else as it was displayed, else as the identifier; a
      failing upsert writes nothing. */
  predicate MappingWritten(crm: Crm, next: Crm, key: Key, name: string, person: Option<PersonId>, raises: bool, answer: Resolution) {
    && next.conversations == crm.conversations && next.notes == crm.notes && next.tasks == crm.tasks
    && (raises ==> answer == Raised && next.identifiers == crm.identifiers)
    && (!raises ==>
          && answer == Resolved(person)
          && next.identifiers.Keys == crm.identifiers.Keys + {key}
          && (forall k :: k in crm.identifiers && k != key ==> next.identifiers[k] == crm.identifiers[k])
          && next.identifiers[key].person == person
          && next.identifiers[key].display ==
               (if |name| > 0 then name else if key in crm.identifiers then crm.identifiers[key].display else key.1))
  }

  /** The person created for a contact: its first word and the rest as names, its identifier as e-mail or phone. */
  predicate IsContact(p: Person, key: Key, name: string, tenant: string) {
    IsNewPerson(p, FirstWord(name), Remainder(name), if key.0 == "email" then key.1 else "",
                if key.0 in {"voice", "sms"} then key.1 else "", tenant)
  }

  lemma ResolveAnswer(crm: Crm, blocklist: set<string>, key: Key, name: string, tenant: string, lookup: Lookup)
    ensures var (next, answer) := ResolveSpec(crm, blocklist, key, name, tenant, lookup);
            var known := WhoIsIt(crm, key, name, lookup);
            var creates := Accepts(blocklist, FirstWord(name), Remainder(name), if key.0 == "email" then key.1 else "")
                           && lookup.newId !in crm.people;
            if known.Some? || name == "" then
              next.people == crm.people && MappingWritten(crm, next, key, name, known, lookup.upsertRaises, answer)
            else if Strip(name) == "" then
              next == crm && answer == Raised
            else if !creates then
              next.people == crm.people && MappingWritten(crm, next, key, name, None, lookup.upsertRaises, answer)
            else
              && next.people.Keys == crm.people.Keys + {lookup.newId}
              && (forall id :: id in crm.people ==> next.people[id] == crm.people[id])
              && IsContact(next.people[lookup.newId], key, name, tenant)
              && MappingWritten(crm, next, key, name, Some(lookup.newId), lookup.upsertRaises, answer)
  {
    KnownIs(crm, key, name, lookup);
    BlankIsEmpty(name);
    var known := WhoIsIt(crm, key, name, lookup);
    if known.Some? || name == "" {
      UpsertAnswer(crm, key, name, known, lookup.upsertRaises);
    } else if Strip(name) != "" {
      var (people, created) := CreateForContact(crm, blocklist, key, name, tenant, lookup.newId);
      ContactAnswer(crm, blocklist, key, name, tenant, lookup.newId);
      UpsertAnswer(crm.(people := people), key, name, if created then Some(lookup.newId) else None, lookup.upsertRaises);
    }
  }

  lemma BlankIsEmpty(name: string)
    ensures Blank(name) <==> Strip(name) == ""
  {
  }

  lemma UpsertAnswer(crm: Crm, key: Key, name: string, person: Option<PersonId>, raises: bool)
    ensures var (next, answer) := Upserted(crm, key, name, person, raises);
            next.people == crm.people && MappingWritten(crm, next, key, name, person, raises, answer)
  {
  }

  lemma ContactAnswer(crm: Crm, blocklist: set<string>, key: Key, name: string, tenant: string, id: PersonId)
    ensures var (people, created) := CreateForContact(crm, blocklist, key, name, tenant, id);
            && (created <==> Accepts(blocklist, FirstWord(name), Remainder(name), if key.0 == "email" then key.1 else "") && id !in crm.people)
            && (!created ==> people == crm.people)
            && (created ==>
                  && people.Keys == crm.people.Keys + {id} && (forall k :: k in crm.people ==> people[k] == crm.people[k])
                  && IsContact(people[id], key, name, tenant))
  {
    CreateAnswer(crm.people, blocklist, id, FirstWord(name), Remainder(name), if key.0 == "email" then key.1 else "",
                 if key.0 == "voice" || key.0 == "sms" then key.1 else "", tenant);
  }

  lemma KnownIs(crm: Crm, key: Key, name: string, lookup: Lookup)
    ensures KnownPerson(crm, key, name, lookup) == WhoIsIt(crm, key, name, lookup)
  {
  }
}
