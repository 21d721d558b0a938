/** People, contact identifiers and identity merges (robothor/crm/dal.py, robothor/crm/validation.py).
    NULL and the empty string are one value here: no test in this code tells them apart. */
module People {
  import opened Sequences
  import opened Text

  type PersonId = nat
  type RowId = nat

  /** The columns a merge may fill in. */
  datatype Field = FirstName | LastName | Email | Phone | JobTitle | City | LinkedinUrl | AvatarUrl | CompanyId

  const FILLABLE: seq<Field> := [FirstName, LastName, Email, Phone, JobTitle, City, LinkedinUrl, AvatarUrl, CompanyId]

  datatype Person = Person(
    fields: map<Field, string>,
    moreEmails: seq<string>,
    morePhones: seq<string>,
    deleted: bool,
    tenant: string)
  {
    function Value(f: Field): string {
      if f in fields then fields[f] else ""
    }
  }

  datatype Identifier = Identifier(display: string, person: Option<PersonId>)

  datatype Link = Link(person: Option<PersonId>, deleted: bool)

  /** A contact's key in `contact_identifiers`. */
  type Key = (string, string)

  datatype Crm = Crm(
    people: map<PersonId, Person>,
    identifiers: map<Key, Identifier>,
    conversations: map<RowId, Link>,
    notes: map<RowId, Link>,
    tasks: map<RowId, Link>)

  predicate Live(crm: Crm, id: PersonId) {
    id in crm.people && !crm.people[id].deleted
  }

  predicate LiveIn(crm: Crm, id: PersonId, tenant: string) {
    Live(crm, id) && crm.people[id].tenant == tenant
  }

  // ---- create_person ----

  /** `NULL_STRINGS` */
  predicate IsNullString(s: string) {
    s == "null" || s == "none" || s == "n/a"
  }

  /** `validate_person_input`, for any `PERSON_BLOCKLIST` */
  predicate ValidPersonInput(blocklist: set<string>, first: string, last: string, email: string) {
    && Lower(Strip(first + " " + last)) !in blocklist
    && Lower(Strip(first)) !in blocklist
    && !IsNullString(Lower(Strip(first)))
    && |Strip(first)| >= 2
    && (email != "" ==> '@' in email)
  }

  /** `normalize_email` */
  function NormalizeEmail(email: string): string {
    var normalized := Strip(Lower(email));
    if '@' in normalized then normalized else ""
  }

  /** `scrub_null_string(name) or name` */
  function Scrubbed(name: string): string {
    var scrubbed := if IsNullString(Lower(Strip(name))) then "" else name;
    if scrubbed != "" then scrubbed else name
  }

  function NewPerson(first: string, last: string, email: string, phone: string, tenant: string): Person {
    Person(map[FirstName := Scrubbed(first), LastName := Scrubbed(last), Email := NormalizeEmail(email), Phone := phone],
           [], [], false, tenant)
  }

  /** The table after `create_person`, and whether it returned an id; a clashing id raises. */
  function CreateSpec(people: map<PersonId, Person>, blocklist: set<string>, id: PersonId, first: string, last: string,
                      email: string, phone: string, tenant: string): (map<PersonId, Person>, bool)
  {
    if !ValidPersonInput(blocklist, first, last, email) || id in people then (people, false)
    else (people[id := NewPerson(first, last, email, phone, tenant)], true)
  }

  // ---- merge_people ----

  /** The keeper's value where it has ink, else the loser's where that has. */
  function Filled(keeper: Person, loser: Person, f: Field): string {
    if Blank(keeper.Value(f)) && !Blank(loser.Value(f)) then loser.Value(f) else keeper.Value(f)
  }

  /** Append each candidate that is not empty, not the keeper's primary one and not yet listed. */
  function Collected(existing: seq<string>, candidates: seq<string>, primary: string): (r: seq<string>)
    decreases |candidates|
  {
    if candidates == [] then existing
    else
      var c := candidates[0];
      Collected(if c != "" && c != primary && c !in existing then existing + [c] else existing, candidates[1..], primary)
  }

  /** The columns of `order`, filled one after the other. */
  function FilledFields(keeper: Person, loser: Person, order: seq<Field>): map<Field, string> {
    if order == [] then map[]
    else
      var n := |order| - 1;
      FilledFields(keeper, loser, order[..n])[order[n] := Filled(keeper, loser, order[n])]
  }

  function MergedPerson(keeper: Person, loser: Person): Person {
    keeper.(fields := FilledFields(keeper, loser, FILLABLE),
            moreEmails := Collected(keeper.moreEmails, [loser.Value(Email)] + loser.moreEmails, keeper.Value(Email)),
            morePhones := Collected(keeper.morePhones, [loser.Value(Phone)] + loser.morePhones, keeper.Value(Phone)))
  }

  function Follow(person: Option<PersonId>, loser: PersonId, keeper: PersonId): Option<PersonId> {
    if person == Some(loser) then Some(keeper) else person
  }

  function RepointIdentifiers(rows: map<Key, Identifier>, loser: PersonId, keeper: PersonId): map<Key, Identifier> {
    map k | k in rows :: rows[k].(person := Follow(rows[k].person, loser, keeper))
  }

  /** `UPDATE … SET person_id = keeper WHERE person_id = loser`, and `deleted_at IS NULL` when `liveOnly`. */
  function RepointLinks(rows: map<RowId, Link>, loser: PersonId, keeper: PersonId, liveOnly: bool): map<RowId, Link> {
    map k | k in rows :: if liveOnly && rows[k].deleted then rows[k]
                         else rows[k].(person := Follow(rows[k].person, loser, keeper))
  }

  function MergeSpec(crm: Crm, keeper: PersonId, loser: PersonId, tenant: string, note: RowId): (Crm, bool) {
    if !LiveIn(crm, keeper, tenant) || !LiveIn(crm, loser, tenant) || note in crm.notes then (crm, false)
    else
      var merged := crm.people[keeper := MergedPerson(crm.people[keeper], crm.people[loser])];
      (Crm(merged[loser := merged[loser].(deleted := true)],
           RepointIdentifiers(crm.identifiers, loser, keeper),
           RepointLinks(crm.conversations, loser, keeper, false),
           RepointLinks(crm.notes, loser, keeper, true)[note := Link(Some(keeper), false)],
           RepointLinks(crm.tasks, loser, keeper, true)), true)
  }

  // ---- resolve_contact ----

  /** What the surrounding queries answer: the owner's person when the name is the owner's, the first
      search hit for the name, the id a new person would get, and whether the final upsert raises. */
  datatype Lookup = Lookup(owner: Option<PersonId>, hit: Option<PersonId>, newId: PersonId, upsertRaises: bool)

  predicate GoodLookup(crm: Crm, tenant: string, lookup: Lookup) {
    && (lookup.owner.Some? ==> LiveIn(crm, lookup.owner.value, tenant))
    && (lookup.hit.Some? ==> LiveIn(crm, lookup.hit.value, tenant))
  }

  /** `name.split(None, 1)`: first word and remainder. */
  function FirstWord(name: string): string {
    var s := StripLeft(name);
    s[..WordEnd(s, 0)]
  }

  function Remainder(name: string): string {
    var s := StripLeft(name);
    StripLeft(s[WordEnd(s, 0)..])
  }

  function WordEnd(s: string, i: nat): (r: nat)
    requires i <= |s|
    ensures i <= r <= |s|
    decreases |s| - i
  {
    if i < |s| && !IsSpace(s[i]) then WordEnd(s, i + 1) else i
  }

  datatype Resolution = Resolved(person: Option<PersonId>) | Raised

  /** The person a contact resolves to without creating one. */
  function KnownPerson(crm: Crm, key: Key, name: string, lookup: Lookup): Option<PersonId> {
    if key in crm.identifiers && crm.identifiers[key].person.Some? then crm.identifiers[key].person
    else if name != "" && lookup.owner.Some? then lookup.owner
    else lookup.hit
  }

  /** The person created for a contact nobody matches; a name of blanks reaches `parts[0]` with no
      parts and raises. */
  function CreateForContact(crm: Crm, blocklist: set<string>, key: Key, name: string, tenant: string, id: PersonId)
    : (map<PersonId, Person>, bool)
  {
    CreateSpec(crm.people, blocklist, id, FirstWord(name), Remainder(name),
               if key.0 == "email" then key.1 else "", if key.0 == "voice" || key.0 == "sms" then key.1 else "", tenant)
  }

  function Upserted(crm: Crm, key: Key, name: string, person: Option<PersonId>, raises: bool): (Crm, Resolution) {
    var display := if name != "" then name else if key in crm.identifiers then crm.identifiers[key].display else key.1;
    if raises then (crm, Raised)
    else (crm.(identifiers := crm.identifiers[key := Identifier(display, person)]), Resolved(person))
  }

  function ResolveSpec(crm: Crm, blocklist: set<string>, key: Key, name: string, tenant: string, lookup: Lookup)
    : (Crm, Resolution)
  {
    var known := KnownPerson(crm, key, name, lookup);
    if known.Some? || name == "" then Upserted(crm, key, name, known, lookup.upsertRaises)
    else if Blank(name) then (crm, Raised)
    else
      var (people, created) := CreateForContact(crm, blocklist, key, name, tenant, lookup.newId);
      Upserted(crm.(people := people), key, name, if created then Some(lookup.newId) else None, lookup.upsertRaises)
  }

  // ---- The tables, updated in place ----

  class CrmTables {
    const blocklist: set<string>
    var people: map<PersonId, Person>
    var identifiers: map<Key, Identifier>
    var conversations: map<RowId, Link>
    var notes: map<RowId, Link>
    var tasks: map<RowId, Link>

    function Snapshot(): Crm
      reads this
    {
      Crm(people, identifiers, conversations, notes, tasks)
    }

    constructor (blocklist: set<string>)
      ensures Snapshot() == Crm(map[], map[], map[], map[], map[]) && this.blocklist == blocklist
    {
      this.blocklist := blocklist;
      people, identifiers, conversations, notes, tasks := map[], map[], map[], map[], map[];
    }

    method CreatePerson(id: PersonId, first: string, last: string, email: string, phone: string, tenant: string)
      returns (created: bool)
      modifies this`people
      ensures (people, created) == CreateSpec(old(people), blocklist, id, first, last, email, phone, tenant)
    {
      if !ValidPersonInput(blocklist, first, last, email) {
        return false;
      }
      if id in people {
        return false;
      }
      people := people[id := NewPerson(first, last, email, phone, tenant)];
      return true;
    }

    /** The loop over `fillable`. */
    method FillFields(keeper: Person, loser: Person, fillable: seq<Field>) returns (fields: map<Field, string>)
      ensures fields == FilledFields(keeper, loser, fillable)
    {
      fields := map[];
      for i := 0 to |fillable|
        invariant fields == FilledFields(keeper, loser, fillable[..i])
      {
        var value := keeper.Value(fillable[i]);
        if Blank(value) && !Blank(loser.Value(fillable[i])) {
          value := loser.Value(fillable[i]);
        }
        assert fillable[..i + 1][..i] == fillable[..i];
        fields := fields[fillable[i] := value];
      }
      assert fillable[..|fillable|] == fillable;
    }

    /** The two collecting loops, for e-mails and for phones. */
    method Collect(existing: seq<string>, primaryOfLoser: string, more: seq<string>, primary: string) returns (list: seq<string>)
      ensures list == Collected(existing, [primaryOfLoser] + more, primary)
    {
      list := existing;
      if primaryOfLoser != "" && primaryOfLoser != primary && primaryOfLoser !in list {
        list := list + [primaryOfLoser];
      }
      assert ([primaryOfLoser] + more)[1..] == more;
      for i := 0 to |more|
        invariant Collected(list, more[i..], primary) == Collected(existing, [primaryOfLoser] + more, primary)
      {
        assert more[i..][1..] == more[i + 1..];
        if more[i] != "" && more[i] != primary && more[i] !in list {
          list := list + [more[i]];
        }
      }
    }

    method MergePeople(keeperId: PersonId, loserId: PersonId, tenant: string, note: RowId) returns (merged: bool)
      modifies this
      ensures (Snapshot(), merged) == MergeSpec(old(Snapshot()), keeperId, loserId, tenant, note)
    {
      if !LiveIn(Snapshot(), keeperId, tenant) || !LiveIn(Snapshot(), loserId, tenant) {
        return false;
      }
      var keeper, loser := people[keeperId], people[loserId];
      var fields := FillFields(keeper, loser, FILLABLE);
      var emails := Collect(keeper.moreEmails, loser.Value(Email), loser.moreEmails, keeper.Value(Email));
      var phones := Collect(keeper.morePhones, loser.Value(Phone), loser.morePhones, keeper.Value(Phone));
      if note in notes {
        return false;
      }
      people := people[keeperId := keeper.(fields := fields, moreEmails := emails, morePhones := phones)];
      identifiers := RepointIdentifiers(identifiers, loserId, keeperId);
      conversations := RepointLinks(conversations, loserId, keeperId, false);
      notes := RepointLinks(notes, loserId, keeperId, true);
      tasks := RepointLinks(tasks, loserId, keeperId, true);
      people := people[loserId := people[loserId].(deleted := true)];
      notes := notes[note := Link(Some(keeperId), false)];
      return true;
    }

    /** Existing mapping, then the owner, then the first search hit. */
    method LookUpPerson(key: Key, name: string, lookup: Lookup) returns (person: Option<PersonId>)
      ensures person == KnownPerson(Snapshot(), key, name, lookup)
    {
      person := None;
      if key in identifiers {
        person := identifiers[key].person;
      }
      if person.None? && name != "" {
        person := lookup.owner;
      }
      if person.None? {
        person := lookup.hit;
      }
    }

    method Upsert(key: Key, name: string, person: Option<PersonId>, raises: bool) returns (resolution: Resolution)
      modifies this
      ensures (Snapshot(), resolution) == Upserted(old(Snapshot()), key, name, person, raises)
    {
      var display := if name != "" then name else if key in identifiers then identifiers[key].display else key.1;
      if raises {
        return Raised;
      }
      identifiers := identifiers[key := Identifier(display, person)];
      return Resolved(person);
    }

    /** A person with the first word of the name, the rest of it, and the address as e-mail or phone. */
    method CreateContact(key: Key, name: string, tenant: string, id: PersonId) returns (person: Option<PersonId>)
      modifies this`people
      ensures var outcome := CreateForContact(old(Snapshot()), blocklist, key, name, tenant, id);
              people == outcome.0 && person == if outcome.1 then Some(id) else None
    {
      var created := CreatePerson(id, FirstWord(name), Remainder(name), if key.0 == "email" then key.1 else "",
                                  if key.0 == "voice" || key.0 == "sms" then key.1 else "", tenant);
      person := if created then Some(id) else None;
    }

    method ResolveContact(channel: string, identifier: string, name: string, tenant: string, lookup: Lookup)
      returns (resolution: Resolution)
      modifies this
      ensures (Snapshot(), resolution)
           == ResolveSpec(old(Snapshot()), blocklist, (channel, identifier), name, tenant, lookup)
    {
      var key := (channel, identifier);
      var person := LookUpPerson(key, name, lookup);
      if person.None? && name != "" {
        if Blank(name) {
          return Raised;
        }
        person := CreateContact(key, name, tenant, lookup.newId);
      }
      resolution := Upsert(key, name, person, lookup.upsertRaises);
    }
  }
}
