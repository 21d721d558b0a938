/** Identity merges and contact resolution over whole runs (robothor/crm/dal.py). */
module PeopleLaws {
  import opened Sequences
  import opened Text
  import opened People

  // ---- Mappings point to live people ----

  ghost predicate MappingsAreLive(crm: Crm) {
    forall k :: k in crm.identifiers && crm.identifiers[k].person.Some? ==> Live(crm, crm.identifiers[k].person.value)
  }

  predicate SomeMappingTo(crm: Crm, id: PersonId) {
    exists k :: k in crm.identifiers && crm.identifiers[k].person == Some(id)
  }

  /** A merge keeps every mapping on a live person exactly when it is no self-merge, or no mapping
      points to the person merged into itself. */
  lemma MergeKeepsMappingsLiveIff(crm: Crm, keeper: PersonId, loser: PersonId, tenant: string, note: RowId)
    requires MappingsAreLive(crm) && MergeSpec(crm, keeper, loser, tenant, note).1
    ensures MappingsAreLive(MergeSpec(crm, keeper, loser, tenant, note).0)
       <==> keeper != loser || !SomeMappingTo(crm, keeper)
  {
    var next := MergeSpec(crm, keeper, loser, tenant, note).0;
    if keeper == loser && SomeMappingTo(crm, keeper) {
      var k :| k in crm.identifiers && crm.identifiers[k].person == Some(keeper);
      assert next.identifiers[k].person == Some(keeper) && !Live(next, keeper);
    }
  }

  lemma CreatedForContact(crm: Crm, blocklist: set<string>, key: Key, name: string, tenant: string, id: PersonId)
    ensures var (people, created) := CreateForContact(crm, blocklist, key, name, tenant, id);
            && (forall p :: p in crm.people ==> p in people && people[p] == crm.people[p])
            && (created ==> id !in crm.people && id in people && !people[id].deleted)
            && (!created ==> people == crm.people)
  {
  }

  /** A resolution either leaves everything alone, or ends in one upsert over a people table that
      at most gained a person, for a person who is live there. */
  lemma ResolveIsUpsert(crm: Crm, blocklist: set<string>, key: Key, name: string, tenant: string, lookup: Lookup)
    returns (people: map<PersonId, Person>, person: Option<PersonId>)
    ensures forall p :: p in crm.people ==> p in people && people[p] == crm.people[p]
    ensures ResolveSpec(crm, blocklist, key, name, tenant, lookup) == (crm, Raised)
         || ResolveSpec(crm, blocklist, key, name, tenant, lookup)
              == Upserted(crm.(people := people), key, name, person, lookup.upsertRaises)
    ensures person == KnownPerson(crm, key, name, lookup)
         || (KnownPerson(crm, key, name, lookup).None? && (person.Some? ==> person.value in people && !people[person.value].deleted))
  {
    people, person := crm.people, KnownPerson(crm, key, name, lookup);
    if !(person.Some? || name == "" || Blank(name)) {
      CreatedForContact(crm, blocklist, key, name, tenant, lookup.newId);
      var (more, created) := CreateForContact(crm, blocklist, key, name, tenant, lookup.newId);
      people, person := more, if created then Some(lookup.newId) else None;
    }
  }

  lemma UpsertKeepsMappingsLive(crm: Crm, people: map<PersonId, Person>, key: Key, name: string, person: Option<PersonId>,
                                raises: bool)
    requires MappingsAreLive(crm)
    requires forall p :: p in crm.people ==> p in people && people[p] == crm.people[p]
    requires person.Some? ==> person.value in people && !people[person.value].deleted
    ensures MappingsAreLive(Upserted(crm.(people := people), key, name, person, raises).0)
  {
  }

  lemma ResolveKeepsMappingsLive(crm: Crm, blocklist: set<string>, key: Key, name: string, tenant: string, lookup: Lookup)
    requires MappingsAreLive(crm) && GoodLookup(crm, tenant, lookup)
    ensures MappingsAreLive(ResolveSpec(crm, blocklist, key, name, tenant, lookup).0)
  {
    var people, person := ResolveIsUpsert(crm, blocklist, key, name, tenant, lookup);
    var known := KnownPerson(crm, key, name, lookup);
    assert known.Some? ==> Live(crm, known.value);
    UpsertKeepsMappingsLive(crm, people, key, name, person, lookup.upsertRaises);
  }

  // ---- Runs ----

  datatype Op =
    | Merge(keeper: PersonId, loser: PersonId, tenant: string, note: RowId)
    | Resolve(key: Key, name: string, tenant: string, lookup: Lookup)

  function After(crm: Crm, blocklist: set<string>, op: Op): Crm {
    match op
    case Merge(keeper, loser, tenant, note) => MergeSpec(crm, keeper, loser, tenant, note).0
    case Resolve(key, name, tenant, lookup) => ResolveSpec(crm, blocklist, key, name, tenant, lookup).0
  }

  function Run(crm: Crm, blocklist: set<string>, ops: seq<Op>): Crm
    decreases |ops|
  {
    if ops == [] then crm else Run(After(crm, blocklist, ops[0]), blocklist, ops[1..])
  }

  /** Two different people per merge; the queries of a resolution answer with live people. */
  predicate GoodOp(crm: Crm, op: Op) {
    match op
    case Merge(keeper, loser, _, _) => keeper != loser
    case Resolve(_, _, tenant, lookup) => GoodLookup(crm, tenant, lookup)
  }

  predicate GoodRun(crm: Crm, blocklist: set<string>, ops: seq<Op>)
    decreases |ops|
  {
    ops == [] || (GoodOp(crm, ops[0]) && GoodRun(After(crm, blocklist, ops[0]), blocklist, ops[1..]))
  }

  /** Where one operation takes a person: to the keeper if it merges that person away. */
  function Moved(crm: Crm, op: Op, person: PersonId): PersonId {
    match op
    case Merge(keeper, loser, tenant, note) =>
      if MergeSpec(crm, keeper, loser, tenant, note).1 && person == loser then keeper else person
    case Resolve(_, _, _, _) => person
  }

  /** Where the merges of a whole run take a person. */
  function Forwarded(crm: Crm, blocklist: set<string>, ops: seq<Op>, person: PersonId): PersonId
    decreases |ops|
  {
    if ops == [] then person
    else Forwarded(After(crm, blocklist, ops[0]), blocklist, ops[1..], Moved(crm, ops[0], person))
  }

  /** One operation never drops a mapping and moves it only along a merge. */
  lemma MappingFollowsStep(crm: Crm, blocklist: set<string>, op: Op, key: Key)
    requires key in crm.identifiers && crm.identifiers[key].person.Some?
    ensures var next := After(crm, blocklist, op);
            key in next.identifiers
            && next.identifiers[key].person == Some(Moved(crm, op, crm.identifiers[key].person.value))
  {
    if op.Resolve? {
      var people, person := ResolveIsUpsert(crm, blocklist, op.key, op.name, op.tenant, op.lookup);
    }
  }

  lemma StepKeepsMappingsLive(crm: Crm, blocklist: set<string>, op: Op)
    requires MappingsAreLive(crm) && GoodOp(crm, op)
    ensures MappingsAreLive(After(crm, blocklist, op))
  {
    match op
    case Merge(keeper, loser, tenant, note) =>
      if MergeSpec(crm, keeper, loser, tenant, note).1 {
        MergeKeepsMappingsLiveIff(crm, keeper, loser, tenant, note);
      }
    case Resolve(key, name, tenant, lookup) =>
      ResolveKeepsMappingsLive(crm, blocklist, key, name, tenant, lookup);
  }

  /** Over any interleaving, mappings stay on live people. */
  lemma {:induction false} RunKeepsMappingsLive(crm: Crm, blocklist: set<string>, ops: seq<Op>)
    requires MappingsAreLive(crm) && GoodRun(crm, blocklist, ops)
    ensures MappingsAreLive(Run(crm, blocklist, ops))
    decreases |ops|
  {
    if ops != [] {
      StepKeepsMappingsLive(crm, blocklist, ops[0]);
      RunKeepsMappingsLive(After(crm, blocklist, ops[0]), blocklist, ops[1..]);
    }
  }

  /** Over any interleaving, a mapping ends where the merges since then take its person. */
  lemma {:induction false} MappingFollowsMerges(crm: Crm, blocklist: set<string>, ops: seq<Op>, key: Key)
    requires key in crm.identifiers && crm.identifiers[key].person.Some?
    ensures var end := Run(crm, blocklist, ops);
            key in end.identifiers
            && end.identifiers[key].person == Some(Forwarded(crm, blocklist, ops, crm.identifiers[key].person.value))
    decreases |ops|
  {
    if ops != [] {
      MappingFollowsStep(crm, blocklist, ops[0], key);
      MappingFollowsMerges(After(crm, blocklist, ops[0]), blocklist, ops[1..], key);
    }
  }

  // ---- Repeating an interrupted resolution ----

  /** The search condition of `search_people`: the term occurs in the first or the last name, in any case. */
  predicate NameMatches(p: Person, term: string) {
    Contains(Lower(p.Value(FirstName)), Lower(term)) || Contains(Lower(p.Value(LastName)), Lower(term))
  }

  lemma {:induction false} StripLeftShortens(s: string)
    ensures StripLeft(s) == s || |StripLeft(s)| < |s|
  {
    if s != "" && IsSpace(s[0]) {
      StripLeftShortens(s[1..]);
    }
  }

  lemma ContainsItself(s: string)
    ensures Contains(s, s)
  {
    assert s[0..|s|] == s;
    FindIs(s, s, 0, 0);
  }

  lemma StripLeftFindsInk(s: string)
    requires !Blank(s)
    ensures StripLeft(s) != ""
  {
    if StripLeft(s) == "" {
      SpacesOnly(s);
      SpacesStripAway(s);
    }
  }

  lemma {:induction false} SpacesOnly(s: string)
    requires StripLeft(s) == ""
    ensures forall k :: 0 <= k < |s| ==> IsSpace(s[k])
  {
    if s != "" {
      SpacesOnly(s[1..]);
    }
  }

  lemma {:induction false} SpacesStripAway(s: string)
    requires forall k :: 0 <= k < |s| ==> IsSpace(s[k])
    ensures StripRight(s) == ""
  {
    if s != "" {
      SpacesStripAway(s[..|s| - 1]);
    }
  }

  /** The two parts of a name: the first one is not empty and is the name only if there is no second. */
  lemma NameParts(name: string)
    requires !Blank(name)
    ensures |FirstWord(name)| <= |name| && (|FirstWord(name)| == |name| ==> FirstWord(name) == name)
    ensures |Remainder(name)| < |name|
  {
    var s := StripLeft(name);
    StripLeftFindsInk(name);
    StripLeftShortens(name);
    assert s[..|s|] == s;
  }

  lemma ScrubbedIsName(name: string)
    ensures Scrubbed(name) == name
  {
  }

  lemma NewPersonNames(first: string, last: string, email: string, phone: string, tenant: string)
    ensures var p := NewPerson(first, last, email, phone, tenant);
            p.Value(FirstName) == first && p.Value(LastName) == last
  {
    ScrubbedIsName(first);
    ScrubbedIsName(last);
  }

  lemma LongerIsNotContained(s: string, term: string)
    requires |term| > |s|
    ensures !Contains(Lower(s), Lower(term))
  {
  }

  /** The person created for a contact. */
  function ContactPerson(key: Key, name: string, tenant: string): Person {
    NewPerson(FirstWord(name), Remainder(name), if key.0 == "email" then key.1 else "",
              if key.0 == "voice" || key.0 == "sms" then key.1 else "", tenant)
  }

  /** The person created for a name is found by that name exactly when the name is a single bare word. */
  lemma CreatedIsFoundIff(key: Key, name: string, tenant: string)
    requires !Blank(name)
    ensures NameMatches(ContactPerson(key, name, tenant), name) <==> FirstWord(name) == name
  {
    NameParts(name);
    NewPersonNames(FirstWord(name), Remainder(name), if key.0 == "email" then key.1 else "",
                   if key.0 == "voice" || key.0 == "sms" then key.1 else "", tenant);
    LongerIsNotContained(Remainder(name), name);
    if FirstWord(name) == name {
      ContainsItself(Lower(name));
    } else {
      LongerIsNotContained(FirstWord(name), name);
    }
  }

  ghost predicate Found(crm: Crm, tenant: string, term: string) {
    exists id :: LiveIn(crm, id, tenant) && NameMatches(crm.people[id], term)
  }

  /** A try that gets as far as the upsert and no further: the name is not the owner's, the search answers
      for the tables as they are, a new id is unused. */
  ghost predicate Interrupted(crm: Crm, name: string, tenant: string, lookup: Lookup) {
    && lookup.owner.None? && lookup.upsertRaises && lookup.newId !in crm.people
    && match lookup.hit
       case Some(id) => LiveIn(crm, id, tenant) && NameMatches(crm.people[id], name)
       case None => !Found(crm, tenant, name)
  }

  predicate Unmapped(crm: Crm, key: Key) {
    key in crm.identifiers ==> crm.identifiers[key].person.None?
  }

  /** `create_person` accepts the two parts of the name and the address. */
  predicate Acceptable(blocklist: set<string>, key: Key, name: string) {
    ValidPersonInput(blocklist, FirstWord(name), Remainder(name), if key.0 == "email" then key.1 else "")
  }

  function Tries(crm: Crm, blocklist: set<string>, key: Key, name: string, tenant: string, tries: seq<Lookup>): Crm
    decreases |tries|
  {
    if tries == [] then crm
    else Tries(ResolveSpec(crm, blocklist, key, name, tenant, tries[0]).0, blocklist, key, name, tenant, tries[1..])
  }

  ghost predicate AllInterrupted(crm: Crm, blocklist: set<string>, key: Key, name: string, tenant: string, tries: seq<Lookup>)
    decreases |tries|
  {
    tries == []
    || (Interrupted(crm, name, tenant, tries[0])
        && AllInterrupted(ResolveSpec(crm, blocklist, key, name, tenant, tries[0]).0, blocklist, key, name, tenant, tries[1..]))
  }

  lemma ContactIsCreated(crm: Crm, blocklist: set<string>, key: Key, name: string, tenant: string, id: PersonId)
    requires Acceptable(blocklist, key, name) && id !in crm.people
    ensures CreateForContact(crm, blocklist, key, name, tenant, id) == (crm.people[id := ContactPerson(key, name, tenant)], true)
  {
  }

  lemma RaisingTry(crm: Crm, blocklist: set<string>, key: Key, name: string, tenant: string, lookup: Lookup)
    requires !Blank(name) && lookup.upsertRaises && KnownPerson(crm, key, name, lookup) == lookup.hit
    ensures ResolveSpec(crm, blocklist, key, name, tenant, lookup).0
         == if lookup.hit.Some? then crm
            else crm.(people := CreateForContact(crm, blocklist, key, name, tenant, lookup.newId).0)
  {
    BlankEmpty();
  }

  /** One interrupted try creates a person exactly when nobody is found, and only for a bare word is there
      somebody to find afterwards. */
  lemma InterruptedTry(crm: Crm, blocklist: set<string>, key: Key, name: string, tenant: string, lookup: Lookup)
    requires !Blank(name) && Unmapped(crm, key) && Acceptable(blocklist, key, name)
    requires Interrupted(crm, name, tenant, lookup)
    ensures var next := ResolveSpec(crm, blocklist, key, name, tenant, lookup).0;
            && next.identifiers == crm.identifiers
            && |next.people| == |crm.people| + (if Found(crm, tenant, name) then 0 else 1)
            && (Found(next, tenant, name) <==> Found(crm, tenant, name) || FirstWord(name) == name)
  {
    var next := ResolveSpec(crm, blocklist, key, name, tenant, lookup).0;
    RaisingTry(crm, blocklist, key, name, tenant, lookup);
    if lookup.hit.None? {
      ContactIsCreated(crm, blocklist, key, name, tenant, lookup.newId);
      CreatedIsFoundIff(key, name, tenant);
      FoundWithOneMore(crm, next, tenant, name, lookup.newId, ContactPerson(key, name, tenant));
    }
  }

  lemma FoundWithOneMore(crm: Crm, next: Crm, tenant: string, term: string, id: PersonId, person: Person)
    requires id !in crm.people && next.people == crm.people[id := person] && !person.deleted && person.tenant == tenant
    ensures Found(next, tenant, term) <==> Found(crm, tenant, term) || NameMatches(person, term)
    ensures |next.people| == |crm.people| + 1
  {
    if Found(crm, tenant, term) {
      var p :| LiveIn(crm, p, tenant) && NameMatches(crm.people[p], term);
      assert LiveIn(next, p, tenant);
    }
    if NameMatches(person, term) {
      assert LiveIn(next, id, tenant);
    }
    if Found(next, tenant, term) {
      var p :| LiveIn(next, p, tenant) && NameMatches(next.people[p], term);
      assert p == id || LiveIn(crm, p, tenant);
    }
  }

  lemma {:induction false} TriesOnceFound(crm: Crm, blocklist: set<string>, key: Key, name: string, tenant: string, tries: seq<Lookup>)
    requires !Blank(name) && Unmapped(crm, key) && Acceptable(blocklist, key, name)
    requires AllInterrupted(crm, blocklist, key, name, tenant, tries) && Found(crm, tenant, name)
    ensures |Tries(crm, blocklist, key, name, tenant, tries).people| == |crm.people|
    decreases |tries|
  {
    if tries != [] {
      InterruptedTry(crm, blocklist, key, name, tenant, tries[0]);
      TriesOnceFound(ResolveSpec(crm, blocklist, key, name, tenant, tries[0]).0, blocklist, key, name, tenant, tries[1..]);
    }
  }

  /** A contact nobody matches, resolved again and again with the upsert failing: a bare word gets one person,
      any other name one person per try. */
  lemma {:induction false} TriesCreate(crm: Crm, blocklist: set<string>, key: Key, name: string, tenant: string, tries: seq<Lookup>)
    requires !Blank(name) && Unmapped(crm, key) && Acceptable(blocklist, key, name)
    requires AllInterrupted(crm, blocklist, key, name, tenant, tries) && !Found(crm, tenant, name) && tries != []
    ensures |Tries(crm, blocklist, key, name, tenant, tries).people|
         == |crm.people| + (if FirstWord(name) == name then 1 else |tries|)
    decreases |tries|
  {
    var next, rest := ResolveSpec(crm, blocklist, key, name, tenant, tries[0]).0, tries[1..];
    InterruptedTry(crm, blocklist, key, name, tenant, tries[0]);
    if FirstWord(name) == name {
      TriesOnceFound(next, blocklist, key, name, tenant, rest);
    } else if rest != [] {
      TriesCreate(next, blocklist, key, name, tenant, rest);
    }
  }

  lemma {:induction false} WordHasNoSpace(s: string, i: nat)
    requires i <= |s|
    ensures forall k :: i <= k < WordEnd(s, i) ==> !IsSpace(s[k])
    decreases |s| - i
  {
    if i < |s| && !IsSpace(s[i]) {
      WordHasNoSpace(s, i + 1);
    }
  }

  lemma FirstWordHasNoSpace(name: string)
    ensures forall k :: 0 <= k < |FirstWord(name)| ==> !IsSpace(FirstWord(name)[k])
  {
    WordHasNoSpace(StripLeft(name), 0);
  }

  function WithContact(crm: Crm, id: PersonId, key: Key, name: string, tenant: string): Crm {
    crm.(people := crm.people[id := ContactPerson(key, name, tenant)])
  }

  lemma CreatingTry(crm: Crm, blocklist: set<string>, key: Key, name: string, tenant: string, id: PersonId)
    requires !Blank(name) && Unmapped(crm, key) && Acceptable(blocklist, key, name)
    requires id !in crm.people && !Found(crm, tenant, name)
    ensures Interrupted(crm, name, tenant, Lookup(None, None, id, true))
    ensures ResolveSpec(crm, blocklist, key, name, tenant, Lookup(None, None, id, true)).0
         == WithContact(crm, id, key, name, tenant)
    ensures Found(WithContact(crm, id, key, name, tenant), tenant, name) <==> FirstWord(name) == name
  {
    var lookup := Lookup(None, None, id, true);
    RaisingTry(crm, blocklist, key, name, tenant, lookup);
    ContactIsCreated(crm, blocklist, key, name, tenant, id);
    InterruptedTry(crm, blocklist, key, name, tenant, lookup);
  }

  lemma TriesCons(crm: Crm, blocklist: set<string>, key: Key, name: string, tenant: string, once: Lookup, rest: seq<Lookup>)
    requires Interrupted(crm, name, tenant, once)
    requires AllInterrupted(ResolveSpec(crm, blocklist, key, name, tenant, once).0, blocklist, key, name, tenant, rest)
    ensures AllInterrupted(crm, blocklist, key, name, tenant, [once] + rest)
    ensures Tries(crm, blocklist, key, name, tenant, [once] + rest)
         == Tries(ResolveSpec(crm, blocklist, key, name, tenant, once).0, blocklist, key, name, tenant, rest)
  {
    assert ([once] + rest)[1..] == rest && ([once] + rest)[0] == once;
  }

  lemma TwoTries(crm: Crm, blocklist: set<string>, key: Key, name: string, tenant: string, once: Lookup, again: Lookup,
                 mid: Crm, end: Crm)
    requires Interrupted(crm, name, tenant, once) && ResolveSpec(crm, blocklist, key, name, tenant, once).0 == mid
    requires Interrupted(mid, name, tenant, again) && ResolveSpec(mid, blocklist, key, name, tenant, again).0 == end
    ensures AllInterrupted(crm, blocklist, key, name, tenant, [once, again])
    ensures Tries(crm, blocklist, key, name, tenant, [once, again]) == end
  {
    TriesCons(mid, blocklist, key, name, tenant, again, []);
    assert [again] + [] == [again];
    TriesCons(crm, blocklist, key, name, tenant, once, [again]);
    assert [once] + [again] == [once, again];
  }

  /** Two interrupted tries for a name with a blank in it leave two people. */
  lemma SpacedNameTwice(crm: Crm, blocklist: set<string>, key: Key, name: string, tenant: string, a: PersonId, b: PersonId)
    requires (exists k :: 0 <= k < |name| && IsSpace(name[k])) && !Blank(name) && Acceptable(blocklist, key, name)
    requires Unmapped(crm, key) && !Found(crm, tenant, name) && a !in crm.people && b !in crm.people && a != b
    ensures var tries := [Lookup(None, None, a, true), Lookup(None, None, b, true)];
            && AllInterrupted(crm, blocklist, key, name, tenant, tries)
            && Tries(crm, blocklist, key, name, tenant, tries)
                 == WithContact(WithContact(crm, a, key, name, tenant), b, key, name, tenant)
  {
    FirstWordHasNoSpace(name);
    var once, again := Lookup(None, None, a, true), Lookup(None, None, b, true);
    var mid := WithContact(crm, a, key, name, tenant);
    CreatingTry(crm, blocklist, key, name, tenant, a);
    CreatingTry(mid, blocklist, key, name, tenant, b);
    TwoTries(crm, blocklist, key, name, tenant, once, again, mid, WithContact(mid, b, key, name, tenant));
  }

  lemma MappedKeyCreatesNobody(crm: Crm, blocklist: set<string>, later: Op)
    requires later.Resolve? && later.key in crm.identifiers && crm.identifiers[later.key].person.Some?
    ensures After(crm, blocklist, later).people == crm.people
  {
  }

  /** Once a resolution has answered with a person, no later one of the same contact creates anybody,
      whatever merges and resolutions lie between. */
  lemma ResolvedOnceCreatesNobody(crm: Crm, blocklist: set<string>, first: Op, ops: seq<Op>, later: Op)
    requires first.Resolve? && later.Resolve? && later.key == first.key
    requires var answer := ResolveSpec(crm, blocklist, first.key, first.name, first.tenant, first.lookup).1;
             answer.Resolved? && answer.person.Some?
    ensures var end := Run(After(crm, blocklist, first), blocklist, ops);
            After(end, blocklist, later).people == end.people
  {
    var next := After(crm, blocklist, first);
    var people, person := ResolveIsUpsert(crm, blocklist, first.key, first.name, first.tenant, first.lookup);
    MappingFollowsMerges(next, blocklist, ops, first.key);
    MappedKeyCreatesNobody(Run(next, blocklist, ops), blocklist, later);
  }

  // ---- What a merge does to the keeper's fields ----

  lemma {:induction false} FilledFieldValue(keeper: Person, loser: Person, order: seq<Field>, f: Field)
    ensures f in order <==> f in FilledFields(keeper, loser, order)
    ensures f in order ==> FilledFields(keeper, loser, order)[f] == Filled(keeper, loser, f)
  {
    if order != [] {
      var n := |order| - 1;
      assert order == order[..n] + [order[n]];
      FilledFieldValue(keeper, loser, order[..n], f);
    }
  }

  lemma EveryFieldIsFillable(f: Field)
    ensures f in FILLABLE
  {
  }

  lemma MergedValue(keeper: Person, loser: Person, f: Field)
    ensures MergedPerson(keeper, loser).Value(f) == Filled(keeper, loser, f)
  {
    FilledFieldValue(keeper, loser, FILLABLE, f);
    EveryFieldIsFillable(f);
  }

  /** A field with ink in it is never overwritten; an empty one takes the loser's ink when there is
      some, and stays as it was otherwise. */
  lemma MergeNeverOverwrites(keeper: Person, loser: Person, f: Field)
    ensures var value := MergedPerson(keeper, loser).Value(f);
            && (!Blank(keeper.Value(f)) ==> value == keeper.Value(f))
            && (Blank(keeper.Value(f)) && !Blank(loser.Value(f)) ==> value == loser.Value(f))
            && (Blank(value) <==> Blank(keeper.Value(f)) && Blank(loser.Value(f)))
  {
    MergedValue(keeper, loser, f);
  }

  // ---- E-mails and phones are conserved ----

  function Elements(s: seq<string>): set<string> {
    set x | x in s
  }

  /** The list keeps what it had, in place, and gains exactly the missing candidates, each once. */
  lemma {:induction false} CollectedGains(existing: seq<string>, candidates: seq<string>, primary: string)
    ensures var r := Collected(existing, candidates, primary);
            && existing <= r
            && Elements(r) == Elements(existing) + (Elements(candidates) - {"", primary})
            && Distinct(r[|existing|..])
            && (forall x :: x in r[|existing|..] ==> x !in existing)
    decreases |candidates|
  {
    if candidates == [] {
      assert existing[|existing|..] == [];
    } else {
      var c, rest := candidates[0], candidates[1..];
      var next := if c != "" && c != primary && c !in existing then existing + [c] else existing;
      CollectedGains(next, rest, primary);
      var r := Collected(next, rest, primary);
      ElementsCons(c, rest);
      assert candidates == [c] + rest;
      if next != existing {
        ElementsSnoc(existing, c);
        GainOne(existing, c, r);
      }
    }
  }

  lemma ElementsCons(x: string, s: seq<string>)
    ensures Elements([x] + s) == {x} + Elements(s)
  {
  }

  lemma ElementsSnoc(s: seq<string>, x: string)
    ensures Elements(s + [x]) == Elements(s) + {x}
  {
  }

  lemma GainOne(existing: seq<string>, c: string, r: seq<string>)
    requires existing + [c] <= r && c !in existing
    requires Distinct(r[|existing| + 1..]) && forall x :: x in r[|existing| + 1..] ==> x !in existing + [c]
    ensures existing <= r && Distinct(r[|existing|..]) && forall x :: x in r[|existing|..] ==> x !in existing
  {
    var n := |existing|;
    assert r[n] == c;
    assert r[n..] == [c] + r[n + 1..];
    assert c in existing + [c];
    assert forall x :: x in existing ==> x in existing + [c];
  }

  /** The non-blank strings among a primary value and a list. */
  function Inked(primary: string, more: seq<string>): set<string> {
    set x | x in [primary] + more && !Blank(x)
  }

  lemma BlankEmpty()
    ensures Blank("")
  {
  }

  lemma InkedMembers(primary: string, more: seq<string>, x: string)
    ensures x in Inked(primary, more) <==> (x == primary || x in more) && !Blank(x)
  {
  }

  /** After a merge the keeper holds exactly the addresses the two people held between them. */
  lemma MergePoolsAddresses(keeperPrimary: string, keeperMore: seq<string>, loserPrimary: string, loserMore: seq<string>)
    ensures var primary := if Blank(keeperPrimary) && !Blank(loserPrimary) then loserPrimary else keeperPrimary;
            Inked(primary, Collected(keeperMore, [loserPrimary] + loserMore, keeperPrimary))
            == Inked(keeperPrimary, keeperMore) + Inked(loserPrimary, loserMore)
  {
    var primary := if Blank(keeperPrimary) && !Blank(loserPrimary) then loserPrimary else keeperPrimary;
    var list := Collected(keeperMore, [loserPrimary] + loserMore, keeperPrimary);
    CollectedGains(keeperMore, [loserPrimary] + loserMore, keeperPrimary);
    BlankEmpty();
    ElementsCons(loserPrimary, loserMore);
    forall x
      ensures x in Inked(primary, list) <==> x in Inked(keeperPrimary, keeperMore) + Inked(loserPrimary, loserMore)
    {
      InkedMembers(primary, list, x);
      InkedMembers(keeperPrimary, keeperMore, x);
      InkedMembers(loserPrimary, loserMore, x);
      assert x in list <==> x in Elements(list);
      assert x in keeperMore <==> x in Elements(keeperMore);
      assert x in loserMore <==> x in Elements(loserMore);
    }
  }

  function EmailsOf(p: Person): set<string> { Inked(p.Value(Email), p.moreEmails) }

  function PhonesOf(p: Person): set<string> { Inked(p.Value(Phone), p.morePhones) }

  /** All non-blank addresses of one kind over the people who are not deleted. */
  ghost predicate HeldByLive(crm: Crm, addresses: Person -> set<string>, x: string) {
    exists id :: Live(crm, id) && x in addresses(crm.people[id])
  }

  lemma MergedAddresses(k: Person, l: Person)
    ensures EmailsOf(MergedPerson(k, l)) == EmailsOf(k) + EmailsOf(l)
    ensures PhonesOf(MergedPerson(k, l)) == PhonesOf(k) + PhonesOf(l)
  {
    MergedValue(k, l, Email);
    MergedValue(k, l, Phone);
    MergePoolsAddresses(k.Value(Email), k.moreEmails, l.Value(Email), l.moreEmails);
    MergePoolsAddresses(k.Value(Phone), k.morePhones, l.Value(Phone), l.morePhones);
  }

  /** Merging two different people leaves the e-mails and phones held by live people as they were. */
  lemma MergeConservesAddresses(crm: Crm, keeper: PersonId, loser: PersonId, tenant: string, note: RowId, x: string)
    requires keeper != loser && MergeSpec(crm, keeper, loser, tenant, note).1
    ensures var next := MergeSpec(crm, keeper, loser, tenant, note).0;
            && (HeldByLive(next, EmailsOf, x) <==> HeldByLive(crm, EmailsOf, x))
            && (HeldByLive(next, PhonesOf, x) <==> HeldByLive(crm, PhonesOf, x))
  {
    var next := MergeSpec(crm, keeper, loser, tenant, note).0;
    MergedAddresses(crm.people[keeper], crm.people[loser]);
    PooledByKeeper(crm, next, EmailsOf, keeper, loser, x);
    PooledByKeeper(crm, next, PhonesOf, keeper, loser, x);
  }

  lemma PooledByKeeper(crm: Crm, next: Crm, addresses: Person -> set<string>, keeper: PersonId, loser: PersonId, x: string)
    requires keeper != loser && Live(crm, keeper) && Live(crm, loser) && Live(next, keeper) && !Live(next, loser)
    requires addresses(next.people[keeper]) == addresses(crm.people[keeper]) + addresses(crm.people[loser])
    requires forall id :: id != keeper && id != loser ==>
               (Live(next, id) <==> Live(crm, id)) && (Live(crm, id) ==> next.people[id] == crm.people[id])
    ensures HeldByLive(next, addresses, x) <==> HeldByLive(crm, addresses, x)
  {
  }

  /** The additional lists keep their entries in place and gain no duplicate of any of them. */
  lemma MergeAddsNoDuplicate(keeper: Person, loser: Person)
    ensures var merged := MergedPerson(keeper, loser);
            && keeper.moreEmails <= merged.moreEmails && keeper.morePhones <= merged.morePhones
            && (Distinct(keeper.moreEmails) ==> Distinct(merged.moreEmails))
            && (Distinct(keeper.morePhones) ==> Distinct(merged.morePhones))
  {
    CollectedGains(keeper.moreEmails, [loser.Value(Email)] + loser.moreEmails, keeper.Value(Email));
    CollectedGains(keeper.morePhones, [loser.Value(Phone)] + loser.morePhones, keeper.Value(Phone));
    DistinctExtension(keeper.moreEmails, MergedPerson(keeper, loser).moreEmails);
    DistinctExtension(keeper.morePhones, MergedPerson(keeper, loser).morePhones);
  }

  lemma DistinctExtension(s: seq<string>, r: seq<string>)
    requires s <= r && Distinct(r[|s|..]) && forall x :: x in r[|s|..] ==> x !in s
    ensures Distinct(s) ==> Distinct(r)
  {
    if Distinct(s) {
      forall i, j | 0 <= i < j < |r| ensures r[i] != r[j] {
        if j >= |s| {
          assert r[j] == r[|s|..][j - |s|] && r[j] in r[|s|..];
          if i >= |s| {
            assert r[i] == r[|s|..][i - |s|];
          } else {
            assert r[i] == s[i] && s[i] in s;
          }
        } else {
          assert r[i] == s[i] && r[j] == s[j];
        }
      }
    }
  }

  /** A primary address the keeper lacked becomes its primary one and is also listed among the
      additional ones: the comparison is with the keeper's address from before the merge. */
  lemma FilledPrimaryIsListedToo(keeper: Person, loser: Person)
    requires Blank(keeper.Value(Email)) && !Blank(loser.Value(Email))
    ensures var merged := MergedPerson(keeper, loser);
            merged.Value(Email) == loser.Value(Email) && loser.Value(Email) in merged.moreEmails
  {
    MergedValue(keeper, loser, Email);
    CollectedGains(keeper.moreEmails, [loser.Value(Email)] + loser.moreEmails, keeper.Value(Email));
    BlankEmpty();
    ElementsCons(loser.Value(Email), loser.moreEmails);
    assert loser.Value(Email) in Elements(MergedPerson(keeper, loser).moreEmails);
  }

  // ---- Rows that referred to the loser ----

  /** No live row refers to the loser any more, deleted notes and tasks excepted; rows of third
      people are untouched. */
  lemma MergeRepointsRows(crm: Crm, keeper: PersonId, loser: PersonId, tenant: string, note: RowId)
    requires keeper != loser && MergeSpec(crm, keeper, loser, tenant, note).1
    ensures var next := MergeSpec(crm, keeper, loser, tenant, note).0;
            && !SomeMappingTo(next, loser)
            && (forall k :: k in crm.conversations ==>
                  next.conversations[k].person == Follow(crm.conversations[k].person, loser, keeper))
            && (forall k :: k in next.notes && !next.notes[k].deleted ==> next.notes[k].person != Some(loser))
            && (forall k :: k in next.tasks && !next.tasks[k].deleted ==> next.tasks[k].person != Some(loser))
            && (forall k :: k in crm.tasks && (crm.tasks[k].deleted || crm.tasks[k].person != Some(loser)) ==>
                  next.tasks[k] == crm.tasks[k])
            && (forall k :: k in crm.tasks && !crm.tasks[k].deleted && crm.tasks[k].person == Some(loser) ==>
                  next.tasks[k].person == Some(keeper))
  {
  }
}
